/**
 A backlog while messages keep arriving: how much of one is read each tick, and
 the rate of arrivals up to which it closes. And the ticks as polls: each the
 poll of a row, and each next one the poll of the row that one saved.
 */
module RelayBacklog {
  import opened Wrappers
  import opened RelayErrors
  import opened RelayFeed
  import opened RelayInbox
  import opened RelayCursor
  import opened RelayRecord
  import opened RelayTable
  import opened RelayPollSteps
  import opened RelayLanding
  import opened RelayPoll
  import opened RelayProgress
  import opened RelayRefines

  /** The pages a tick has left for the backlog once `n` new ids are read. */
  function PagesLeft(n: int): int { MAX_PAGES_PER_POLL - (n / MAX_PAGE_SIZE + 1) }

  /** The walk of the newest region that finds `n` new ids above an open backlog. */
  lemma ForwardOverArrivals(feed: Feed, later: Feed, c: Cursor, n: nat, forward: WalkResult, highest: int)
    requires Backlogged(feed, c) && Grows(feed, later) && n == |later| - |feed|
    requires forward == QuietWalk(later, c.top, 0, MAX_PAGES_PER_POLL) && highest == HighestOf(SortById(forward.items))
    ensures NewestWalked(later, MAX_PAGES_PER_POLL, |feed|, forward)
    ensures highest == if forward.items == [] then 0 else later[|later| - 1].id
  {
    assert later[|feed| - 1] == feed[|feed| - 1];
    CountAt(later, |feed| - 1);
    NewestWalkHighest(later, c.top, MAX_PAGES_PER_POLL, |feed|, forward, highest);
  }

  /** Where the cursor is after that walk. */
  function AboveBacklog(later: Feed, c: Cursor, n: nat): Cursor
    requires later != [] && n <= |later|
  {
    if n < 200 then c.(top := later[|later| - 1].id) else Cursor(c.floor, later[|later| - 200].id, later[|later| - 1].id)
  }

  lemma ForwardMoves(feed: Feed, later: Feed, c: Cursor, n: nat, forward: WalkResult, highest: int)
    requires c.Shape() && c.Unread() && Grows(feed, later) && feed != [] && n == |later| - |feed| && c.top == feed[|feed| - 1].id
    requires NewestWalked(later, MAX_PAGES_PER_POLL, |feed|, forward)
    requires highest == if forward.items == [] then 0 else later[|later| - 1].id
    ensures |forward.items| == if n < 200 then n else 200
    ensures AfterForward(c, highest, forward) == AboveBacklog(later, c, n)
  {
    assert n == 0 ==> later == feed;
    assert 0 < later[|later| - 1].id;
  }

  /** The same backlog, seen from the inbox as it has grown. */
  lemma BacklogGrows(feed: Feed, later: Feed, c: Cursor)
    requires Backlogged(feed, c) && Grows(feed, later)
    ensures Backlogged(later, c.(top := later[|later| - 1].id))
    ensures UnreadCount(later, c.(top := later[|later| - 1].id)) == UnreadCount(feed, c)
  {
    var f, g := Positions(feed, c);
    GapAt(later, c, f, g);
  }

  /** A cursor whose floor and gap stand at two positions has a backlog of what lies between. */
  lemma GapAt(feed: Feed, c: Cursor, f: nat, g: nat)
    requires Ascending(feed) && f < g < |feed| && feed[f].id == c.floor && feed[g].id == c.gap
    ensures var at := c.(top := feed[|feed| - 1].id); Backlogged(feed, at) && UnreadCount(feed, at) == g - f - 1
  {
    assert feed[f] in feed && feed[g] in feed && feed[|feed| - 1] in feed;
    CountAt(feed, f);
    CountAt(feed, g);
  }

  /** What the pages left over read of a backlog. */
  lemma BackfillReads(feed: Feed, c: Cursor, pages: nat)
    requires Backlogged(feed, c) && 0 < pages
    ensures var at := AfterBackfill(c, QuietWalk(feed, c.floor, c.gap, pages));
            && 0 <= UnreadCount(feed, c)
            && (UnreadCount(feed, c) < pages * MAX_PAGE_SIZE ==> at == Settled(feed))
            && (pages * MAX_PAGE_SIZE <= UnreadCount(feed, c) ==>
                  Backlogged(feed, at) && UnreadCount(feed, at) == UnreadCount(feed, c) - pages * MAX_PAGE_SIZE)
  {
    var f, g := Positions(feed, c);
    BacklogWalkAt(feed, f, g, pages);
    if pages * MAX_PAGE_SIZE <= UnreadCount(feed, c) {
      GapMovedDown(feed, c, f, g, g - pages * MAX_PAGE_SIZE);
    }
  }

  /**
   What one tick that finds `n` new ids above a backlog of r comes to. Under 150 it
   reads 50, 100 or 150 of the r as well, or all of them; from 150 to 199 none;
   from 200 on it leaves more unread than it found.
   */
  ghost predicate OverArrivals(feed: Feed, later: Feed, c: Cursor, at: Cursor) {
    var n, r := |later| - |feed|, UnreadCount(feed, c);
    var read := PagesLeft(n) * MAX_PAGE_SIZE;
    && later != [] && 0 <= r
    && (n < 150 && r < read ==> at == Settled(later))
    && (n < 150 && read <= r ==> 50 <= read && Backlogged(later, at) && UnreadCount(later, at) == r - read)
    && (150 <= n < 200 ==> Backlogged(later, at) && UnreadCount(later, at) == r)
    && (200 <= n ==> Backlogged(later, at) && UnreadCount(later, at) > r + n - 200)
  }

  lemma TickOverArrivals(feed: Feed, later: Feed, c: Cursor, n: nat)
    requires Backlogged(feed, c) && Grows(feed, later) && n == |later| - |feed|
    ensures OverArrivals(feed, later, c, QuietTick(later, c))
  {
    var forward := QuietWalk(later, c.top, 0, MAX_PAGES_PER_POLL);
    var highest := HighestOf(SortById(forward.items));
    ForwardOverArrivals(feed, later, c, n, forward, highest);
    ForwardMoves(feed, later, c, n, forward, highest);
    TickIs(later, c, n, forward, AboveBacklog(later, c, n));
    AboveArrivals(feed, later, c, n, QuietTick(later, c));
  }

  /** A tick is its forward walk and then, if any page is left, its backlog. */
  lemma TickIs(later: Feed, c: Cursor, n: nat, forward: WalkResult, kept: Cursor)
    requires !c.FirstPoll() && c.ForwardFrom() == c.top && forward == QuietWalk(later, c.top, 0, MAX_PAGES_PER_POLL)
    requires kept == AfterForward(c, HighestOf(SortById(forward.items)), forward) && kept.Unread()
    requires |forward.items| == if n < 200 then n else 200
    ensures QuietTick(later, c)
         == if n < 150 then AfterBackfill(kept, QuietWalk(later, kept.floor, kept.gap, PagesLeft(n))) else kept
  {
  }

  lemma AboveArrivals(feed: Feed, later: Feed, c: Cursor, n: nat, at: Cursor)
    requires Backlogged(feed, c) && Grows(feed, later) && n == |later| - |feed|
    requires var kept := AboveBacklog(later, c, n);
             at == if n < 150 then AfterBackfill(kept, QuietWalk(later, kept.floor, kept.gap, PagesLeft(n))) else kept
    ensures OverArrivals(feed, later, c, at)
  {
    var f, g := Positions(feed, c);
    if n < 200 {
      BacklogGrows(feed, later, c);
      if n < 150 {
        BackfillReads(later, AboveBacklog(later, c, n), PagesLeft(n));
      }
    } else {
      GapAt(later, AboveBacklog(later, c, n), f, |later| - 200);
    }
  }

  /** Ticks over an inbox that grows before each of them, and is quiet while each runs. */
  ghost predicate TicksOver(feeds: seq<Feed>, ticks: seq<Cursor>) {
    && |feeds| == |ticks|
    && forall i :: 0 <= i < |ticks| - 1 ==> Grows(feeds[i], feeds[i + 1]) && ticks[i + 1] == QuietTick(feeds[i + 1], ticks[i])
  }

  /** What such ticks come to, step by step. */
  ghost predicate Loaded(feeds: seq<Feed>, ticks: seq<Cursor>) {
    && |feeds| == |ticks|
    && forall i :: 0 <= i < |ticks| - 1 ==>
         Backlogged(feeds[i], ticks[i]) ==> OverArrivals(feeds[i], feeds[i + 1], ticks[i], ticks[i + 1])
  }

  lemma TicksAreLoaded(feeds: seq<Feed>, ticks: seq<Cursor>)
    requires TicksOver(feeds, ticks)
    ensures Loaded(feeds, ticks)
  {
    forall i | 0 <= i < |ticks| - 1 && Backlogged(feeds[i], ticks[i])
      ensures OverArrivals(feeds[i], feeds[i + 1], ticks[i], ticks[i + 1])
    {
      TickOverArrivals(feeds[i], feeds[i + 1], ticks[i], |feeds[i + 1]| - |feeds[i]|);
    }
  }

  /** How many arrived before the tick after step `i`. */
  function Arrivals(feeds: seq<Feed>, i: nat): int
    requires i + 1 < |feeds|
  {
    |feeds[i + 1]| - |feeds[i]|
  }

  /**
   BACKLOGS CLOSE UNDER LOAD: while fewer than 150 arrive before each tick, a
   backlog of r ids is gone within r/50 + 1 ticks.
   */
  lemma BacklogClosesUnderLoad(feeds: seq<Feed>, ticks: seq<Cursor>) returns (k: nat)
    requires ticks != [] && TicksOver(feeds, ticks) && Backlogged(feeds[0], ticks[0])
    requires forall i :: 0 <= i < |ticks| - 1 ==> Arrivals(feeds, i) < 150
    requires UnreadCount(feeds[0], ticks[0]) < 50 * (|ticks| - 1)
    ensures 0 < k < |ticks| && 50 * (k - 1) <= UnreadCount(feeds[0], ticks[0]) && feeds[k] != [] && ticks[k] == Settled(feeds[k])
  {
    TicksAreLoaded(feeds, ticks);
    k := LoadCloses(feeds, ticks, 0);
  }

  lemma {:induction false} LoadCloses(feeds: seq<Feed>, ticks: seq<Cursor>, i: nat) returns (k: nat)
    requires i < |ticks| && Loaded(feeds, ticks) && Backlogged(feeds[i], ticks[i])
    requires forall j :: i <= j < |ticks| - 1 ==> Arrivals(feeds, j) < 150
    requires UnreadCount(feeds[i], ticks[i]) < 50 * (|ticks| - 1 - i)
    ensures i < k < |ticks| && 50 * (k - 1 - i) <= UnreadCount(feeds[i], ticks[i])
    ensures feeds[k] != [] && ticks[k] == Settled(feeds[k])
    decreases |ticks| - i
  {
    var f, g := Positions(feeds[i], ticks[i]);
    assert Arrivals(feeds, i) < 150;
    assert OverArrivals(feeds[i], feeds[i + 1], ticks[i], ticks[i + 1]);
    if ticks[i + 1] == Settled(feeds[i + 1]) {
      k := i + 1;
    } else {
      k := LoadCloses(feeds, ticks, i + 1);
    }
  }

  /** From 150 arrivals a tick on, a backlog never closes, and never loses an id. */
  lemma BacklogStaysUnderLoad(feeds: seq<Feed>, ticks: seq<Cursor>, k: nat)
    requires k < |ticks| && TicksOver(feeds, ticks) && Backlogged(feeds[0], ticks[0])
    requires forall i :: 0 <= i < |ticks| - 1 ==> 150 <= Arrivals(feeds, i)
    ensures Backlogged(feeds[k], ticks[k]) && UnreadCount(feeds[0], ticks[0]) <= UnreadCount(feeds[k], ticks[k])
  {
    TicksAreLoaded(feeds, ticks);
    LoadStays(feeds, ticks, k);
  }

  lemma {:induction false} LoadStays(feeds: seq<Feed>, ticks: seq<Cursor>, k: nat)
    requires k < |ticks| && Loaded(feeds, ticks) && Backlogged(feeds[0], ticks[0])
    requires forall i :: 0 <= i < |ticks| - 1 ==> 150 <= Arrivals(feeds, i)
    ensures Backlogged(feeds[k], ticks[k]) && UnreadCount(feeds[0], ticks[0]) <= UnreadCount(feeds[k], ticks[k])
  {
    if k > 0 {
      var i := k - 1;
      LoadStays(feeds, ticks, i);
      assert 150 <= Arrivals(feeds, i);
      assert OverArrivals(feeds[i], feeds[i + 1], ticks[i], ticks[i + 1]);
    }
  }

  // ------------------------------------------------------------------
  // The ticks as polls of one row
  // ------------------------------------------------------------------

  /** A poll of a member's row, over a quiet inbox, in which nothing fails. */
  ghost predicate QuietPoll(m: string, feed: Feed, d: Desk, around: Surroundings, e: Desk) {
    && Ascending(feed) && m in d.table.rows && d.table.rows[m].member == m
    && Lands(d) && around.member.Ok? && around.newest.fault.None? && around.backlog.fault.None? && around.saving.None?
    && e == PollOn(d, Provider(feed, [], 0), around, d.table.rows[m]).0
  }

  lemma PollTicks(m: string, feed: Feed, d: Desk, around: Surroundings, e: Desk)
    requires QuietPoll(m, feed, d, around, e)
    ensures m in e.table.rows && e.table.rows[m].cursor == QuietTick(feed, d.table.rows[m].cursor)
  {
    QuietPollTicks(d, Provider(feed, [], 0), around, d.table.rows[m]);
    PollWritesItsCursor(d, Provider(feed, [], 0), around, d.table.rows[m]);
  }

  /** Such polls one after the other, each of the row the one before saved. */
  ghost predicate QuietPolls(m: string, feeds: seq<Feed>, desks: seq<Desk>, arounds: seq<Surroundings>) {
    && |feeds| == |desks| == |arounds| + 1
    && (forall i :: 0 <= i < |desks| ==> m in desks[i].table.rows)
    && forall i :: 0 <= i < |arounds| ==>
         Grows(feeds[i], feeds[i + 1]) && QuietPoll(m, feeds[i + 1], desks[i], arounds[i], desks[i + 1])
  }

  /** The cursors the row holds. */
  function Cursors(m: string, desks: seq<Desk>): (ticks: seq<Cursor>)
    requires forall i :: 0 <= i < |desks| ==> m in desks[i].table.rows
    ensures |ticks| == |desks| && forall i :: 0 <= i < |desks| ==> ticks[i] == desks[i].table.rows[m].cursor
  {
    if desks == [] then [] else [desks[0].table.rows[m].cursor] + Cursors(m, desks[1..])
  }

  /** The cursors such polls save are successive ticks: all that is said of ticks is said of polls. */
  lemma PollsTick(m: string, feeds: seq<Feed>, desks: seq<Desk>, arounds: seq<Surroundings>)
    requires QuietPolls(m, feeds, desks, arounds)
    ensures TicksOver(feeds, Cursors(m, desks))
  {
    var ticks := Cursors(m, desks);
    forall i | 0 <= i < |ticks| - 1
      ensures Grows(feeds[i], feeds[i + 1]) && ticks[i + 1] == QuietTick(feeds[i + 1], ticks[i])
    {
      PollTicks(m, feeds[i + 1], desks[i], arounds[i], desks[i + 1]);
    }
  }

  // ------------------------------------------------------------------
  // Pages that are not full
  // ------------------------------------------------------------------

  /** Every request is answered, with one item, and nothing arrives. */
  predicate OneByOne(turns: seq<Turn>) {
    forall i :: 0 <= i < |turns| ==> turns[i] == Turn([], Answers(1, false))
  }

  /** What a walk over such pages comes to: one item a request. */
  ghost predicate ReadOneByOne(p: Provider, budget: nat, lo: nat, walk: WalkResult,
                               answered: (Provider, Result<WalkResult, Error>))
    requires budget <= |p.turns| && budget <= lo <= |p.feed|
  {
    && answered.0 == Provider(p.feed, p.turns[budget..], p.requests + budget)
    && answered.1.Ok? && !answered.1.value.closed && |answered.1.value.items| == |walk.items| + budget
    && (0 < budget ==> answered.1.value.oldest == p.feed[lo - budget].id)
  }

  /** The walk, while there is enough above `until`. */
  lemma {:induction false} OneByOneWalk(p: Provider, until: int, before: int, budget: nat, walk: WalkResult, lo: nat)
    requires Ascending(p.feed) && OneByOne(p.turns) && budget <= |p.turns|
    requires lo == Start(p.feed, before) && budget < lo && (0 < budget ==> until < p.feed[lo - budget].id) && !walk.closed
    ensures ReadOneByOne(p, budget, lo, walk, Walk(p, until, before, budget, walk))
    decreases budget, 0
  {
    if budget > 0 {
      var (mid, fetched) := Fetch(p, until, before, walk);
      OneByOneFetch(p, until, before, walk, lo, mid, fetched);
      OneByOneRest(mid, until, budget, lo, fetched.walk);
      WalkStep(p, until, before, budget, walk, mid, fetched);
      OneMore(p, mid, budget, lo, walk, fetched.walk, Walk(mid, until, fetched.walk.oldest, budget - 1, fetched.walk));
    } else {
      assert p.turns[0..] == p.turns;
    }
  }

  lemma {:induction false} OneByOneRest(mid: Provider, until: int, budget: nat, lo: nat, more: WalkResult)
    requires OneByOne(mid.turns) && Ascending(mid.feed) && 0 < budget <= |mid.turns| + 1
    requires budget < lo <= |mid.feed| && until < mid.feed[lo - budget].id && !more.closed
    requires more.oldest == mid.feed[lo - 1].id
    ensures ReadOneByOne(mid, budget - 1, lo - 1, more, Walk(mid, until, more.oldest, budget - 1, more))
    decreases budget - 1, 1
  {
    ResumesAt(mid.feed, lo - 1);
    var left, low := budget - 1, lo - 1;
    assert low == Start(mid.feed, more.oldest) && low - left == lo - budget;
    OneByOneWalk(mid, until, more.oldest, left, more, low);
  }

  lemma ResumesAt(feed: Feed, i: nat)
    requires Ascending(feed) && i < |feed|
    ensures Start(feed, feed[i].id) == i
  {
    CountAt(feed, i);
  }

  lemma WalkStep(p: Provider, until: int, before: int, budget: nat, walk: WalkResult, mid: Provider, fetched: Fetched)
    requires 0 < budget && (mid, fetched) == Fetch(p, until, before, walk) && fetched.Continues?
    ensures Walk(p, until, before, budget, walk) == Walk(mid, until, fetched.walk.oldest, budget - 1, fetched.walk)
  {
  }

  lemma OneMore(p: Provider, mid: Provider, budget: nat, lo: nat, walk: WalkResult, more: WalkResult,
                answered: (Provider, Result<WalkResult, Error>))
    requires 0 < budget <= |p.turns| && budget < lo <= |p.feed|
    requires mid == Provider(p.feed, p.turns[1..], p.requests + 1)
    requires |more.items| == |walk.items| + 1 && more.oldest == p.feed[lo - 1].id
    requires ReadOneByOne(mid, budget - 1, lo - 1, more, answered)
    requires budget == 1 ==> answered.1 == Ok(more)
    ensures ReadOneByOne(p, budget, lo, walk, answered)
  {
    assert p.turns[1..][budget - 1..] == p.turns[budget..];
  }

  lemma OneByOneFetch(p: Provider, until: int, before: int, walk: WalkResult, lo: nat, mid: Provider, fetched: Fetched)
    requires Ascending(p.feed) && OneByOne(p.turns) && p.turns != []
    requires lo == Start(p.feed, before) && 1 < lo && until < p.feed[lo - 1].id
    requires (mid, fetched) == Fetch(p, until, before, walk)
    ensures mid == Provider(p.feed, p.turns[1..], p.requests + 1) && OneByOne(mid.turns) && Ascending(mid.feed)
    ensures fetched.Continues? && !fetched.walk.closed && |fetched.walk.items| == |walk.items| + 1
    ensures fetched.walk.oldest == p.feed[lo - 1].id
  {
    assert p.feed + p.turns[0].arrivals == p.feed;
    var page := PageUnder(p.feed, before, 1, false);
    assert page.items[0] == p.feed[lo - 1] && |page.items| == 1 && page.hasMore;
    assert until < p.feed[lo - 1].id;
    assert Above(page.items, until) == 1;
  }

  /**
   Short pages are under-counted. A poll that is answered one item a page, with more
   new ones than both its walks can read so, asks for seven pages: four for the newest
   region, charged as one, and three for the backlog.
   */
  lemma ShortPagesOverspend(d: Desk, p: Provider, around: Surroundings, conn: Row, member: ProviderUser, lo: nat)
    requires Ascending(p.feed) && OneByOne(p.turns) && 7 <= |p.turns| && Lands(d) && around.newest.fault.None?
    requires conn.cursor == Cursor(conn.cursor.floor, 0, 0) && 0 < conn.cursor.floor
    requires 7 < lo == |p.feed| && conn.cursor.floor < p.feed[lo - 7].id
    ensures DecideOn(d, p, around, conn, member).1.requests == p.requests + 7
  {
    var (mid, half, newest) := ReadNewestOn(d, p, around.newest, conn, member);
    NewestOneByOne(d, p, around.newest, conn, member, lo, mid, half, newest);
    BacklogOneByOne(mid, half, around.backlog, conn, member, newest.value.0, lo);
  }

  lemma NewestOneByOne(d: Desk, p: Provider, users: Directory, conn: Row, member: ProviderUser, lo: nat,
                       e: Desk, after: Provider, newest: Result<(Cursor, nat), Error>)
    requires Ascending(p.feed) && OneByOne(p.turns) && 7 <= |p.turns| && Lands(d) && users.fault.None?
    requires conn.cursor == Cursor(conn.cursor.floor, 0, 0) && 0 < conn.cursor.floor
    requires 7 < lo == |p.feed| && conn.cursor.floor < p.feed[lo - 7].id
    requires (e, after, newest) == ReadNewestOn(d, p, users, conn, member)
    ensures after == Provider(p.feed, p.turns[4..], p.requests + 4)
    ensures newest.Ok? && newest.value.1 == 3
            && newest.value.0.floor == conn.cursor.floor && newest.value.0.gap == p.feed[lo - 4].id
  {
    var c := conn.cursor;
    assert c.Budget() == 4 && c.ForwardFrom() == c.floor;
    var (half, walked) := Walk(p, c.ForwardFrom(), 0, c.Budget(), NOTHING_FETCHED);
    OneByOneWalk(p, c.ForwardFrom(), 0, c.Budget(), NOTHING_FETCHED, lo);
    LandsEverything(d, conn, users, member, SortById(walked.value.items));
    assert walked.value.oldest == p.feed[lo - 4].id && 0 < p.feed[lo - 4].id;
    var highest := HighestOf(SortById(walked.value.items));
    ShortForward(c, highest, walked.value);
    ReadNewestIs(d, p, users, conn, member, half, walked.value, AfterForward(c, highest, walked.value));
  }

  /** What reading the newest region comes to when its walk and its landing do not fail. */
  lemma ReadNewestIs(d: Desk, p: Provider, users: Directory, conn: Row, member: ProviderUser, half: Provider, forward: WalkResult,
                     at: Cursor)
    requires Walk(p, conn.cursor.ForwardFrom(), 0, conn.cursor.Budget(), NOTHING_FETCHED) == (half, Ok(forward))
    requires LandWalkOn(d, users, conn, member, forward.items).1.Ok?
    requires at == AfterForward(conn.cursor, HighestOf(SortById(forward.items)), forward)
    ensures ReadNewestOn(d, p, users, conn, member).1 == half
    ensures ReadNewestOn(d, p, users, conn, member).2 == Ok((at, BackfillBudget(at, forward.items, conn.cursor.Budget())))
  {
  }

  lemma BacklogOneByOne(d: Desk, p: Provider, users: Directory, conn: Row, member: ProviderUser, at: Cursor, lo: nat)
    requires Ascending(p.feed) && OneByOne(p.turns) && 3 <= |p.turns|
    requires 7 < lo == |p.feed| && at.floor < p.feed[lo - 7].id && at.gap == p.feed[lo - 4].id
    ensures FillGapOn(d, p, users, conn, member, at, 3).1.requests == p.requests + 3
  {
    ResumesAt(p.feed, lo - 4);
    OneByOneWalk(p, at.floor, at.gap, 3, NOTHING_FETCHED, lo - 4);
  }

  lemma ShortForward(c: Cursor, highest: int, forward: WalkResult)
    requires c == Cursor(c.floor, 0, 0) && 0 < c.floor && !forward.closed && |forward.items| == 4 && 0 < forward.oldest
    ensures var at := AfterForward(c, highest, forward);
            at.floor == c.floor && at.gap == forward.oldest && BackfillBudget(at, forward.items, 4) == 3
  {
  }
}
