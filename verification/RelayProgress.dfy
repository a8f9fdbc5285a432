/**
 How fast a backlog closes once nothing new arrives and nothing fails, and what
 the first poll of a connection reads.
 */
module RelayProgress {
  import opened Wrappers
  import opened RelayErrors
  import opened RelayFeed
  import opened RelayInbox
  import opened RelayWalk
  import opened RelayCursor
  import opened RelayRecord
  import opened RelayTable
  import opened RelayPollSteps
  import opened RelayLanding
  import opened RelayPoll
  import opened RelayPollSafety

  /** What a walk finds in an inbox that is quiet while it runs. */
  function QuietWalk(feed: Feed, until: int, from: int, budget: nat): WalkResult {
    var hi := Start(feed, from);
    var lo := WalkBottom(feed, until, hi, budget);
    if 0 <= lo < hi then WalkResult(Newest(feed, lo, hi), WalkCloses(feed, until, hi, budget), feed[lo].id)
    else WalkResult([], WalkCloses(feed, until, hi, budget), 0)
  }

  /** The cursor after one poll of a quiet inbox in which nothing fails. */
  function QuietTick(feed: Feed, c: Cursor): Cursor {
    var forward := QuietWalk(feed, c.ForwardFrom(), 0, c.Budget());
    var at := AfterForward(c, HighestOf(SortById(forward.items)), forward);
    var left := BackfillBudget(at, forward.items, c.Budget());
    if left > 0 then AfterBackfill(at, QuietWalk(feed, at.floor, at.gap, left)) else at
  }

  /** The cursors successive polls of a quiet inbox write. */
  ghost predicate QuietTicks(feed: Feed, ticks: seq<Cursor>) {
    forall i :: 0 <= i < |ticks| - 1 ==> ticks[i + 1] == QuietTick(feed, ticks[i])
  }

  /** On a quiet, healthy provider the walk is exactly this. */
  lemma QuietWalkIs(p: Provider, until: int, from: int, budget: nat)
    requires p.turns == [] && Ascending(p.feed) && 0 < budget
    ensures var (after, result) := Walk(p, until, from, budget, NOTHING_FETCHED);
            && after.turns == [] && after.feed == p.feed
            && result == Ok(QuietWalk(p.feed, until, from, budget))
  {
    WalkIsASlice(p, until, from, budget);
    var (after, result) := Walk(p, until, from, budget, NOTHING_FETCHED);
    QuietStaysQuiet(p, until, from, budget, NOTHING_FETCHED);
    var hi := Start(p.feed, from);
    var lo := WalkBottom(p.feed, until, hi, budget);
    assert result.value.items == Newest(p.feed, lo, hi);
  }

  lemma {:induction false} QuietStaysQuiet(p: Provider, until: int, before: int, budget: nat, walk: WalkResult)
    requires p.turns == []
    ensures var after := Walk(p, until, before, budget, walk).0; after.turns == [] && after.feed == p.feed
    decreases budget
  {
    if budget > 0 {
      var (after, fetched) := Fetch(p, until, before, walk);
      if fetched.Continues? {
        QuietStaysQuiet(after, until, fetched.walk.oldest, budget - 1, fetched.walk);
      }
    }
  }

  // ------------------------------------------------------------------
  // One quiet tick
  // ------------------------------------------------------------------

  /** The ids nothing has read yet, between the floor and the gap. */
  function UnreadCount(feed: Feed, c: Cursor): int {
    CountBelow(feed, c.gap) - CountBelow(feed, c.floor + 1)
  }

  /** A backlog under the newest id: what any tick over a quiet inbox leaves, or a settled cursor. */
  ghost predicate Backlogged(feed: Feed, c: Cursor) {
    && Ascending(feed) && feed != []
    && c.Shape() && c.Unread() && Issued(feed, c)
    && c.top == feed[|feed| - 1].id
  }

  lemma CountAt(feed: Feed, i: nat)
    requires Ascending(feed) && i < |feed|
    ensures CountBelow(feed, feed[i].id) == i && CountBelow(feed, feed[i].id + 1) == i + 1
  {
  }

  /** With nothing new, the forward walk is one page's glance, and three pages go to the backlog. */
  lemma BackloggedTick(feed: Feed, c: Cursor)
    requires Backlogged(feed, c)
    ensures QuietTick(feed, c) == AfterBackfill(c, QuietWalk(feed, c.floor, c.gap, MAX_PAGES_PER_POLL - 1))
  {
  }

  /** Some pages under position g either reach the floor at position f, or stop full pages further down. */
  lemma BacklogWalkAt(feed: Feed, f: nat, g: nat, pages: nat)
    requires Ascending(feed) && f < g < |feed| && 0 < pages
    ensures var walk := QuietWalk(feed, feed[f].id, feed[g].id, pages);
            if g - f - 1 < pages * MAX_PAGE_SIZE then walk.closed
            else !walk.closed && walk.oldest == feed[g - pages * MAX_PAGE_SIZE].id
  {
    CountAt(feed, f);
    CountAt(feed, g);
  }

  lemma Positions(feed: Feed, c: Cursor) returns (f: nat, g: nat)
    requires Backlogged(feed, c)
    ensures f < g < |feed| && feed[f].id == c.floor && feed[g].id == c.gap
    ensures UnreadCount(feed, c) == g - f - 1
  {
    f :| 0 <= f < |feed| && feed[f].id == c.floor;
    g :| 0 <= g < |feed| && feed[g].id == c.gap;
    CountAt(feed, f);
    CountAt(feed, g);
  }

  lemma GapMovedDown(feed: Feed, c: Cursor, f: nat, g: nat, low: nat)
    requires Backlogged(feed, c) && f < low <= g < |feed| && feed[f].id == c.floor && feed[g].id == c.gap
    ensures Backlogged(feed, c.(gap := feed[low].id))
    ensures UnreadCount(feed, c.(gap := feed[low].id)) == low - f - 1
  {
    CountAt(feed, f);
    CountAt(feed, low);
    assert feed[low] in feed;
  }

  /** What one quiet tick leaves of a backlog: 150 ids fewer, or none and the floor at the newest id. */
  ghost predicate Shrinks(feed: Feed, c: Cursor, at: Cursor) {
    var r := UnreadCount(feed, c);
    && 0 <= r
    && (r < 150 ==> at == Cursor(c.top, 0, 0))
    && (150 <= r ==> at == c.(gap := at.gap) && Backlogged(feed, at) && UnreadCount(feed, at) == r - 150)
  }

  lemma TickShrinksBacklog(feed: Feed, c: Cursor)
    requires Backlogged(feed, c)
    ensures Shrinks(feed, c, QuietTick(feed, c))
  {
    var f, g := Positions(feed, c);
    BackloggedTick(feed, c);
    BacklogWalkAt(feed, f, g, MAX_PAGES_PER_POLL - 1);
    if 150 <= UnreadCount(feed, c) {
      GapMovedDown(feed, c, f, g, g - 150);
    }
  }

  // ------------------------------------------------------------------
  // From any cursor a poll can hold
  // ------------------------------------------------------------------

  /** A cursor this inbox's polls can have written. */
  ghost predicate Written(feed: Feed, c: Cursor) {
    Ascending(feed) && feed != [] && c.Shape() && Issued(feed, c)
  }

  function Settled(feed: Feed): Cursor
    requires feed != []
  {
    Cursor(feed[|feed| - 1].id, 0, 0)
  }

  lemma ForwardPosition(feed: Feed, c: Cursor) returns (u: nat)
    requires Written(feed, c)
    ensures u == CountBelow(feed, c.ForwardFrom() + 1) && (c.FirstPoll() <==> u == 0)
    ensures u > 0 ==> feed[u - 1].id == c.ForwardFrom()
  {
    u := CountBelow(feed, c.ForwardFrom() + 1);
    if !c.FirstPoll() {
      var i :| 0 <= i < |feed| && feed[i].id == c.ForwardFrom();
      CountAt(feed, i);
    } else {
      CountBelowIs(feed, 1, 0);
    }
  }

  /** What the newest region's walk finds: everything above the position the cursor had reached, or full pages of it. */
  lemma NewestWalkAt(feed: Feed, until: int, budget: nat, u: nat, walk: WalkResult)
    requires Ascending(feed) && feed != [] && 0 < budget && u == CountBelow(feed, until + 1)
    requires walk == QuietWalk(feed, until, 0, budget)
    ensures NewestWalked(feed, budget, u, walk)
    ensures NewestFirst(feed, |feed| - |walk.items|, |feed|, walk.items)
  {
  }

  /** How far a walk from the newest page gets, position by position. */
  predicate NewestWalked(feed: Feed, budget: nat, u: nat, walk: WalkResult) {
    var low := |feed| - budget * MAX_PAGE_SIZE;
    && walk.closed == (low <= 0 || low < u)
    && |walk.items| == (if walk.closed then |feed| - u else budget * MAX_PAGE_SIZE)
    && (!walk.closed ==> 0 <= low < |feed| && walk.oldest == feed[low].id)
  }

  /** The forward arithmetic over what was found, position by position. */
  lemma NewestMoved(feed: Feed, c: Cursor, u: nat, walk: WalkResult, highest: int)
    requires Written(feed, c) && u <= |feed| && (c.FirstPoll() <==> u == 0)
    requires u > 0 ==> feed[u - 1].id == c.ForwardFrom()
    requires NewestWalked(feed, c.Budget(), u, walk)
    requires highest == if walk.items == [] then 0 else feed[|feed| - 1].id
    ensures var at := AfterForward(c, highest, walk);
            at == Settled(feed) || (Backlogged(feed, at) && at.floor == c.floor)
  {
  }

  /** The cursor after the newest region of a quiet inbox. */
  lemma NewestRegion(feed: Feed, c: Cursor)
    requires Written(feed, c)
    ensures var forward := QuietWalk(feed, c.ForwardFrom(), 0, c.Budget());
            var at := AfterForward(c, HighestOf(SortById(forward.items)), forward);
            at == Settled(feed) || (Backlogged(feed, at) && at.floor == c.floor)
  {
    var u := ForwardPosition(feed, c);
    var walk := QuietWalk(feed, c.ForwardFrom(), 0, c.Budget());
    var highest := HighestOf(SortById(walk.items));
    NewestWalkHighest(feed, c.ForwardFrom(), c.Budget(), u, walk, highest);
    NewestMoved(feed, c, u, walk, highest);
  }

  lemma NewestWalkHighest(feed: Feed, until: int, budget: nat, u: nat, walk: WalkResult, highest: int)
    requires Ascending(feed) && feed != [] && 0 < budget && u == CountBelow(feed, until + 1)
    requires walk == QuietWalk(feed, until, 0, budget) && highest == HighestOf(SortById(walk.items))
    ensures NewestWalked(feed, budget, u, walk)
    ensures highest == if walk.items == [] then 0 else feed[|feed| - 1].id
  {
    NewestWalkAt(feed, until, budget, u, walk);
    HighestOfNewest(feed, walk.items);
  }

  lemma HighestOfNewest(feed: Feed, items: seq<Item>)
    requires Ascending(feed) && |items| <= |feed| && NewestFirst(feed, |feed| - |items|, |feed|, items)
    ensures HighestOf(SortById(items)) == if items == [] then 0 else feed[|feed| - 1].id
  {
    HighestOfSlice(feed, |feed| - |items|, |feed|, items);
  }

  lemma TickFromAnywhere(feed: Feed, c: Cursor)
    requires Written(feed, c)
    ensures var at := QuietTick(feed, c);
            at == Settled(feed) || (Backlogged(feed, at) && at.floor == c.floor)
  {
    NewestRegion(feed, c);
    var forward := QuietWalk(feed, c.ForwardFrom(), 0, c.Budget());
    var at := AfterForward(c, HighestOf(SortById(forward.items)), forward);
    var left := BackfillBudget(at, forward.items, c.Budget());
    if left > 0 {
      var f, g := Positions(feed, at);
      BacklogWalkAt(feed, f, g, left);
      if left * MAX_PAGE_SIZE <= g - f - 1 {
        GapMovedDown(feed, at, f, g, g - left * MAX_PAGE_SIZE);
      }
    }
  }

  lemma SettledStays(feed: Feed)
    requires Ascending(feed) && feed != []
    ensures QuietTick(feed, Settled(feed)) == Settled(feed)
  {
  }

  // ------------------------------------------------------------------
  // Tick after tick
  // ------------------------------------------------------------------

  /** What successive quiet ticks come to, whatever they start from. */
  ghost predicate Steps(feed: Feed, ticks: seq<Cursor>) {
    forall i :: 0 <= i < |ticks| - 1 ==>
      && (Backlogged(feed, ticks[i]) ==> Shrinks(feed, ticks[i], ticks[i + 1]))
      && (feed != [] && ticks[i] == Settled(feed) ==> ticks[i + 1] == Settled(feed))
  }

  lemma QuietTicksStep(feed: Feed, ticks: seq<Cursor>)
    requires QuietTicks(feed, ticks) && Ascending(feed)
    ensures Steps(feed, ticks)
  {
    forall i | 0 <= i < |ticks| - 1
      ensures Backlogged(feed, ticks[i]) ==> Shrinks(feed, ticks[i], ticks[i + 1])
      ensures feed != [] && ticks[i] == Settled(feed) ==> ticks[i + 1] == Settled(feed)
    {
      if Backlogged(feed, ticks[i]) {
        TickShrinksBacklog(feed, ticks[i]);
      }
      if feed != [] {
        SettledStays(feed);
      }
    }
  }

  /**
   BACKLOGS CLOSE, and exactly when: each tick reads 150 of the r unread ids, so
   r / 150 ticks leave the rest of them, and the next one ends with no gap and
   the floor at the newest id.
   */
  lemma BacklogCloses(feed: Feed, ticks: seq<Cursor>, n: nat)
    requires n < |ticks| && QuietTicks(feed, ticks) && Backlogged(feed, ticks[0])
    ensures 0 <= UnreadCount(feed, ticks[0])
    ensures n <= UnreadCount(feed, ticks[0]) / 150 ==>
              Backlogged(feed, ticks[n]) && UnreadCount(feed, ticks[n]) == UnreadCount(feed, ticks[0]) - 150 * n
    ensures n == UnreadCount(feed, ticks[0]) / 150 + 1 ==> ticks[n] == Settled(feed)
  {
    QuietTicksStep(feed, ticks);
    StepsClose(feed, ticks, 0, n);
  }

  lemma {:induction false} StepsClose(feed: Feed, ticks: seq<Cursor>, i: nat, n: nat)
    requires i + n < |ticks| && Steps(feed, ticks) && Backlogged(feed, ticks[i])
    ensures 0 <= UnreadCount(feed, ticks[i])
    ensures 150 * n <= UnreadCount(feed, ticks[i]) ==>
              Backlogged(feed, ticks[i + n]) && UnreadCount(feed, ticks[i + n]) == UnreadCount(feed, ticks[i]) - 150 * n
    ensures 150 * (n - 1) <= UnreadCount(feed, ticks[i]) < 150 * n ==> ticks[i + n] == Settled(feed)
    decreases n
  {
    var f, g := Positions(feed, ticks[i]);
    if n > 0 {
      assert Shrinks(feed, ticks[i], ticks[i + 1]);
      if 150 <= UnreadCount(feed, ticks[i]) {
        StepsClose(feed, ticks, i + 1, n - 1);
      }
    }
  }

  lemma {:induction false} SettledForGood(feed: Feed, ticks: seq<Cursor>, i: nat, n: nat)
    requires i <= n < |ticks| && Steps(feed, ticks) && feed != [] && ticks[i] == Settled(feed)
    ensures ticks[n] == Settled(feed)
    decreases n
  {
    if i < n {
      SettledForGood(feed, ticks, i, n - 1);
    }
  }

  /**
   From any cursor, however many bursts re-opened its gap: once the inbox is
   quiet, one tick and then 150 ids a tick cover everything above the floor, and
   settle it for good with every one of them read.
   */
  lemma EveryBacklogCloses(feed: Feed, ticks: seq<Cursor>, n: nat)
    requires n < |ticks| && QuietTicks(feed, ticks) && Written(feed, ticks[0])
    requires |feed| - CountBelow(feed, ticks[0].floor + 1) < 150 * (n - 1)
    ensures ticks[n] == Settled(feed)
  {
    QuietTicksStep(feed, ticks);
    FirstStep(feed, ticks);
    SettledSoon(feed, ticks, ticks[0].floor, n);
  }

  lemma FirstStep(feed: Feed, ticks: seq<Cursor>)
    requires 1 < |ticks| && QuietTicks(feed, ticks) && Written(feed, ticks[0])
    ensures ticks[1] == Settled(feed) || (Backlogged(feed, ticks[1]) && ticks[1].floor == ticks[0].floor)
  {
    assert ticks[0 + 1] == QuietTick(feed, ticks[0]);
    TickFromAnywhere(feed, ticks[0]);
  }

  lemma SettledSoon(feed: Feed, ticks: seq<Cursor>, floor: int, n: nat)
    requires 1 <= n < |ticks| && Steps(feed, ticks) && Ascending(feed) && feed != []
    requires ticks[1] == Settled(feed) || (Backlogged(feed, ticks[1]) && ticks[1].floor == floor)
    requires |feed| - CountBelow(feed, floor + 1) < 150 * (n - 1)
    ensures ticks[n] == Settled(feed)
  {
    if ticks[1] == Settled(feed) {
      SettledForGood(feed, ticks, 1, n);
    } else {
      var f, g := Positions(feed, ticks[1]);
      var k := UnreadCount(feed, ticks[1]) / 150 + 1;
      StepsClose(feed, ticks, 1, k);
      SettledForGood(feed, ticks, 1 + k, n);
    }
  }

  // ------------------------------------------------------------------
  // The poll that ticks
  // ------------------------------------------------------------------

  /** Nothing stops a landing: the core takes, skips or refuses for good all it is handed, and every drop is written. */
  predicate Lands(d: Desk) {
    && (forall i :: 0 <= i < |d.answers| && d.answers[i].Refused? ==> ErrInvalid in d.answers[i].error)
    && forall i :: 0 <= i < |d.writes| ==> d.writes[i].None?
  }

  lemma {:induction false} LandsEverything(d: Desk, conn: Row, users: Directory, member: ProviderUser, todo: seq<Item>)
    requires Lands(d)
    ensures var (e, _, failure) := LandAllOn(d, conn, users, member, todo); failure.None? && Lands(e)
    decreases |todo|
  {
    if todo != [] {
      var after := if Directed(todo[0]) then LandOneOn(d, conn, users, member, todo[0]).0 else d;
      LandsEverything(after, conn, users, member, todo[1..]);
    }
  }

  lemma QuietNewest(d: Desk, p: Provider, users: Directory, conn: Row, member: ProviderUser)
    requires p.turns == [] && Ascending(p.feed) && Lands(d) && users.fault.None?
    ensures var (e, after, newest) := ReadNewestOn(d, p, users, conn, member);
            var forward := QuietWalk(p.feed, conn.cursor.ForwardFrom(), 0, conn.cursor.Budget());
            var at := AfterForward(conn.cursor, HighestOf(SortById(forward.items)), forward);
            && after.turns == [] && after.feed == p.feed && Lands(e)
            && newest == Ok((at, BackfillBudget(at, forward.items, conn.cursor.Budget())))
  {
    QuietWalkIs(p, conn.cursor.ForwardFrom(), 0, conn.cursor.Budget());
    var forward := QuietWalk(p.feed, conn.cursor.ForwardFrom(), 0, conn.cursor.Budget());
    LandsEverything(d, conn, users, member, SortById(forward.items));
  }

  lemma QuietBacklog(d: Desk, p: Provider, users: Directory, conn: Row, member: ProviderUser, at: Cursor, budget: nat)
    requires p.turns == [] && Ascending(p.feed) && Lands(d) && users.fault.None? && 0 < budget
    ensures FillGapOn(d, p, users, conn, member, at, budget).2
         == Ok(AfterBackfill(at, QuietWalk(p.feed, at.floor, at.gap, budget)))
  {
    QuietWalkIs(p, at.floor, at.gap, budget);
    LandsEverything(d, conn, users, member, SortById(QuietWalk(p.feed, at.floor, at.gap, budget).items));
  }

  /** A poll of a quiet provider in which no lookup and no ingest stops it writes exactly the quiet tick's cursor. */
  lemma QuietPollTicks(d: Desk, p: Provider, around: Surroundings, conn: Row)
    requires p.turns == [] && Ascending(p.feed) && Lands(d)
    requires around.member.Ok? && around.newest.fault.None? && around.backlog.fault.None? && around.saving.None?
    ensures PollOn(d, p, around, conn).2 == Ok(QuietTick(p.feed, conn.cursor))
  {
    var member := around.member.value;
    QuietNewest(d, p, around.newest, conn, member);
    var (mid, after, newest) := ReadNewestOn(d, p, around.newest, conn, member);
    if newest.value.1 > 0 {
      QuietBacklog(mid, after, around.backlog, conn, member, newest.value.0, newest.value.1);
    }
  }

  // ------------------------------------------------------------------
  // The first poll
  // ------------------------------------------------------------------

  /** The first poll's walk is the newest page. */
  lemma FirstWalkIsOnePage(feed: Feed)
    requires Ascending(feed) && feed != []
    ensures var walk := QuietWalk(feed, 0, 0, FIRST_POLL_PAGES);
            && NewestFirst(feed, PageBottom(|feed|), |feed|, walk.items)
            && walk.oldest == feed[PageBottom(|feed|)].id
  {
  }

  lemma OnThePage(feed: Feed, lo: nat, items: seq<Item>, i: nat)
    requires Ascending(feed) && NewestFirst(feed, lo, |feed|, items) && i < |feed|
    ensures feed[i] in items <==> lo <= i
  {
    if lo <= i {
      assert items[|feed| - 1 - i] == feed[i];
    }
  }

  /**
   One successful first poll of a quiet inbox reads the newest page and fixes the
   baseline right under it; one of an empty inbox decides nothing and leaves the
   next poll a first poll too. Over whole runs, see RelayFirstPoll.
   */
  lemma FirstPollReadsOnePage(feed: Feed, i: nat)
    requires Ascending(feed) && i < |feed|
    ensures QuietTick([], UNREAD_ACCOUNT) == UNREAD_ACCOUNT
    ensures QuietTick(feed, UNREAD_ACCOUNT) == Settled(feed)
    ensures var walk := QuietWalk(feed, 0, 0, FIRST_POLL_PAGES);
            && (feed[i] in walk.items <==> |feed| - i <= MAX_PAGE_SIZE)
            && (feed[i].id <= BaselineAfter(UNREAD_ACCOUNT, 0, walk) <==> MAX_PAGE_SIZE < |feed| - i)
  {
    FirstTicks(feed);
    FirstWalkIsOnePage(feed);
    OnThePage(feed, PageBottom(|feed|), QuietWalk(feed, 0, 0, FIRST_POLL_PAGES).items, i);
  }

  lemma FirstTicks(feed: Feed)
    requires Ascending(feed) && feed != []
    ensures QuietTick([], UNREAD_ACCOUNT) == UNREAD_ACCOUNT
    ensures QuietTick(feed, UNREAD_ACCOUNT) == Settled(feed)
  {
    TickFromAnywhere(feed, UNREAD_ACCOUNT);
  }

  /** Some message a connection was open for lies under the baseline: 51 that arrive before the first poll finds any. */
  lemma FirstPollCanMiss()
    ensures exists feed: Feed ::
              && Ascending(feed) && feed != []
              && QuietTick([], UNREAD_ACCOUNT) == UNREAD_ACCOUNT
              && feed[0] !in QuietWalk(feed, 0, 0, FIRST_POLL_PAGES).items
              && QuietTick(feed, UNREAD_ACCOUNT) == Settled(feed)
              && feed[0].id <= BaselineAfter(UNREAD_ACCOUNT, 0, QuietWalk(feed, 0, 0, FIRST_POLL_PAGES))
  {
    var feed := seq(MAX_PAGE_SIZE + 1, i => Item(i + 1, "dm", "someone", false));
    FirstPollReadsOnePage(feed, 0);
    assert MAX_PAGE_SIZE < |feed| - 0;
  }

  /** A first poll of a quiet inbox that has a sender to look up fails where the lookup does. */
  lemma LookupFails(d: Desk, p: Provider, around: Surroundings, conn: Row, item: Item)
    requires p.turns == [] && Ascending(p.feed) && conn.cursor == UNREAD_ACCOUNT
    requires item in QuietWalk(p.feed, 0, 0, FIRST_POLL_PAGES).items && Directed(item) && item.senderId != ""
    requires around.member.Ok? && around.newest.fault.Some?
    ensures var (e, _, polled) := PollOn(d, p, around, conn); polled.Err? && e == d
  {
    var items := QuietWalk(p.feed, 0, 0, FIRST_POLL_PAGES).items;
    QuietWalkIs(p, 0, 0, FIRST_POLL_PAGES);
    assert AsksAnyone(SortById(items)) by {
      assert item in multiset(SortById(items));
    }
    LookupStops(d, p, around, conn, QuietWalk(p.feed, 0, 0, FIRST_POLL_PAGES));
  }

  lemma LookupStops(d: Desk, p: Provider, around: Surroundings, conn: Row, walk: WalkResult)
    requires conn.cursor == UNREAD_ACCOUNT && Walk(p, 0, 0, FIRST_POLL_PAGES, NOTHING_FETCHED).1 == Ok(walk)
    requires AsksAnyone(SortById(walk.items)) && around.member.Ok? && around.newest.fault.Some?
    ensures var (e, _, polled) := PollOn(d, p, around, conn); polled.Err? && e == d
  {
    assert conn.cursor.ForwardFrom() == 0 && conn.cursor.Budget() == FIRST_POLL_PAGES;
    var users := around.newest;
    assert LandWalkOn(d, users, conn, around.member.value, walk.items) == (d, Err(users.fault.value));
  }

  /**
   A first poll that finds its page and then fails, at the lookup of its senders,
   has written nothing: the row is unread still. Once 50 more have arrived the
   next poll does not walk the same region again, and what the failed one had
   found lies under the baseline that one fixes.
   */
  lemma FailedFirstPollCanMiss(d: Desk, around: Surroundings, conn: Row, feed: Feed, more: seq<Item>)
    requires Ascending(feed + more) && feed != [] && |more| == MAX_PAGE_SIZE && conn.cursor == UNREAD_ACCOUNT
    requires Directed(feed[|feed| - 1]) && feed[|feed| - 1].senderId != ""
    requires around.member.Ok? && around.newest.fault.Some?
    ensures var (e, _, polled) := PollOn(d, Provider(feed, [], 0), around, conn); polled.Err? && e == d
    ensures feed[|feed| - 1] in QuietWalk(feed, 0, 0, FIRST_POLL_PAGES).items
    ensures var walk := QuietWalk(feed + more, 0, 0, FIRST_POLL_PAGES);
            && feed[|feed| - 1] !in walk.items
            && QuietTick(feed + more, UNREAD_ACCOUNT) == Settled(feed + more)
            && feed[|feed| - 1].id <= BaselineAfter(UNREAD_ACCOUNT, 0, walk)
  {
    var all, last := feed + more, |feed| - 1;
    assert Ascending(feed) by { assert forall i :: 0 <= i < |feed| ==> feed[i] == all[i]; }
    FirstPollReadsOnePage(feed, last);
    LookupFails(d, Provider(feed, [], 0), around, conn, feed[last]);
    FirstPollReadsOnePage(all, last);
    assert all[last] == feed[last];
  }

  // ------------------------------------------------------------------
  // The newest first, always
  // ------------------------------------------------------------------

  /**
   A backlog never delays the newest messages: whatever arrives and however much
   is still unread, by the time a poll writes its cursor it has decided every id
   from the gap (from the baseline, when no gap is left) up to the newest there
   was when its first page was answered.
   */
  lemma EveryPollReadsTheNewest(d: Desk, p: Provider, around: Surroundings, conn: Row, baseline: int)
    requires Orderly(p) && around.member.Ok? && NextFeed(p) != []
    requires SoundAt(d, conn, around.member.value.workspaceId, p.feed, baseline, conn.cursor)
    ensures var member := around.member.value;
            var (e, after, decided) := DecideOn(d, p, around, conn, member);
            var newest := NextFeed(p)[|NextFeed(p)| - 1].id;
            && (PollOn(d, p, around, conn).2.Ok? ==> PollOn(d, p, around, conn).2 == decided)
            && (decided.Ok? ==>
                  && newest <= decided.value.ForwardFrom()
                  && DecidedUpTo(e, conn, member.workspaceId, after.feed, BaselineOf(p, conn, baseline), decided.value, newest))
  {
    var member := around.member.value;
    var (e, after, decided) := DecideOn(d, p, around, conn, member);
    if decided.Ok? {
      ForwardReachesTheNewest(d, p, around, conn, member, baseline);
      DecideIsSound(d, p, around, conn, member, baseline, e, after, decided);
      SoundDecidesUpTo(e, conn, member.workspaceId, after.feed, BaselineOf(p, conn, baseline), decided.value,
                       NextFeed(p)[|NextFeed(p)| - 1].id);
    }
  }

  lemma ForwardReachesTheNewest(d: Desk, p: Provider, around: Surroundings, conn: Row, member: ProviderUser, baseline: int)
    requires Orderly(p) && NextFeed(p) != []
    requires SoundAt(d, conn, member.workspaceId, p.feed, baseline, conn.cursor)
    ensures var decided := DecideOn(d, p, around, conn, member).2;
            decided.Ok? ==> NextFeed(p)[|NextFeed(p)| - 1].id <= decided.value.ForwardFrom()
  {
    var (e, after, decided) := DecideOn(d, p, around, conn, member);
    if decided.Ok? {
      var (mid, half, newest) := ReadNewestOn(d, p, around.newest, conn, member);
      NewestGoes(d, p, around.newest, conn, member);
      NewestIsSound(d, p, around.newest, conn, member, baseline, mid, half, newest);
      NewestReaches(d, p, around.newest, conn, member);
      if newest.value.1 > 0 {
        BacklogIsSound(mid, half, around.backlog, conn, member, BaselineOf(p, conn, baseline),
                       newest.value.0, newest.value.1, e, after, decided);
      }
    }
  }

  /** Every id above the baseline and outside the unread region, up to `newest`, is decided. */
  ghost predicate DecidedUpTo(d: Desk, conn: Row, workspace: string, feed: Feed, baseline: int, at: Cursor, newest: int) {
    forall it :: it in feed && baseline < it.id <= newest && (at.Unread() ==> it.id <= at.floor || at.gap <= it.id) ==>
      DecidedAt(d, conn, workspace, it)
  }

  lemma SoundDecidesUpTo(d: Desk, conn: Row, workspace: string, feed: Feed, baseline: int, at: Cursor, newest: int)
    requires SoundAt(d, conn, workspace, feed, baseline, at) && newest <= at.ForwardFrom()
    ensures DecidedUpTo(d, conn, workspace, feed, baseline, at, newest)
  {
    forall it | it in feed && baseline < it.id <= newest && (at.Unread() ==> it.id <= at.floor || at.gap <= it.id)
      ensures DecidedAt(d, conn, workspace, it)
    {
      assert Passed(at, baseline, it.id);
      assert it in DecidedSet(d, conn, workspace, feed);
    }
  }

  /** The highest id of the newest region is the newest there was, or that was already decided. */
  lemma HighestReached(first: Feed, later: Feed, until: int, lo: nat, result: WalkResult)
    requires Grows(first, later) && first != [] && Ascending(first)
    requires Slice(later, until, lo, |first|, result)
    requires lo == |first| ==> first[|first| - 1].id <= until
    ensures HighestOf(SortById(result.items)) == if result.items == [] then 0 else first[|first| - 1].id
    ensures result.items == [] ==> first[|first| - 1].id <= until
  {
    HighestOfSlice(later, lo, |first|, result.items);
    assert later[|first| - 1] == first[|first| - 1];
  }

  /** What a successful forward walk has to do with the newest id there was. */
  ghost predicate Reaches(c: Cursor, newest: int, result: WalkResult) {
    && HighestOf(SortById(result.items)) == (if result.items == [] then 0 else newest)
    && (result.items == [] ==> newest <= c.ForwardFrom() && result.closed)
    && (result.items != [] ==> c.ForwardFrom() <= newest)
  }

  lemma SliceReaches(feed: Feed, later: Feed, c: Cursor, lo: nat, result: WalkResult)
    requires Grows(feed, later) && feed != [] && Ascending(feed) && lo <= |feed|
    requires Slice(later, c.ForwardFrom(), lo, |feed|, result)
    requires lo == |feed| ==> feed[|feed| - 1].id <= c.ForwardFrom() && result.closed
    ensures Reaches(c, feed[|feed| - 1].id, result)
  {
    HighestReached(feed, later, c.ForwardFrom(), lo, result);
    assert lo < |feed| ==> later[lo] == feed[lo];
  }

  lemma ReachedIsReaches(feed: Feed, later: Feed, c: Cursor, result: WalkResult)
    requires Grows(feed, later) && feed != [] && Ascending(feed)
    requires Reached(feed, later, c.ForwardFrom(), |feed|, |feed|, result)
    ensures Reaches(c, feed[|feed| - 1].id, result)
  {
    SliceReaches(feed, later, c, |feed| - |result.items|, result);
  }

  lemma ForwardWalkReaches(p: Provider, c: Cursor)
    requires Orderly(p) && NextFeed(p) != [] && c.Shape()
    ensures var result := Walk(p, c.ForwardFrom(), 0, c.Budget(), NOTHING_FETCHED).1;
            result.Ok? ==> Reaches(c, NextFeed(p)[|NextFeed(p)| - 1].id, result.value)
  {
    var feed := NextFeed(p);
    var (after, walked) := Walk(p, c.ForwardFrom(), 0, c.Budget(), NOTHING_FETCHED);
    WalkHasNoHole(p, c.ForwardFrom(), 0, c.Budget());
    NextFeedGrows(p);
    if walked.Ok? {
      ReachedIsReaches(feed, after.feed, c, walked.value);
    }
  }

  lemma NewestReaches(d: Desk, p: Provider, users: Directory, conn: Row, member: ProviderUser)
    requires Orderly(p) && NextFeed(p) != [] && conn.cursor.Shape()
    ensures var newest := ReadNewestOn(d, p, users, conn, member).2;
            newest.Ok? ==> NextFeed(p)[|NextFeed(p)| - 1].id <= newest.value.0.ForwardFrom()
  {
    var c := conn.cursor;
    var walked := Walk(p, c.ForwardFrom(), 0, c.Budget(), NOTHING_FETCHED).1;
    ForwardWalkReaches(p, c);
    NextFeedGrows(p);
    if walked.Ok? {
      LandWalkDecides(d, users, conn, member, walked.value.items);
      ForwardReaches(c, HighestOf(SortById(walked.value.items)), walked.value, NextFeed(p)[|NextFeed(p)| - 1].id);
    }
  }

  lemma ForwardReaches(c: Cursor, processedTo: int, result: WalkResult, newest: int)
    requires c.Shape() && 0 < newest
    requires if result.items == [] then processedTo == 0 && newest <= c.ForwardFrom() && result.closed
             else processedTo == newest && c.ForwardFrom() <= newest
    ensures newest <= AfterForward(c, processedTo, result).ForwardFrom()
  {
  }
}
