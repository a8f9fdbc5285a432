/**
 What a connection never reads: the baseline, which is fixed by the first poll
 that SAVES a walk that found anything, from the one page that poll fetched.
 A first poll that fails, however far it got, fixes nothing, and neither does one
 that finds the inbox empty.
 */
module RelayFirstPoll {
  import opened RelayErrors
  import opened RelayFeed
  import opened RelayInbox
  import opened RelayCursor
  import opened RelayTable
  import opened RelayPollSteps
  import opened RelayProtocol
  import opened RelaySafety

  // ------------------------------------------------------------------
  // The first poll's one page, from its fetch to its save
  // ------------------------------------------------------------------

  /** Along the whole run the poll is in flight. */
  ghost predicate InFlight(s: State, events: seq<Event>, pid: nat)
    decreases |events|
  {
    && pid in s.polls
    && (events != [] && Enabled(s, events[0]) ==> InFlight(Step(s, events[0]), events[1..], pid))
  }

  /** A first poll that fetched a page from `oldest` up to `newest`, wherever it has got since. */
  ghost predicate FirstRead(p: Poll, oldest: int, newest: int) {
    && p.conn.cursor.FirstPoll() && 0 < newest
    && match p.phase
       case Walking(_, _, _, _) => false
       case Landing(forward, at, result, todo, _) =>
         forward && at == p.conn.cursor && result.items != [] && result.oldest == oldest && HighestOf(todo) == newest
       case Saving(at) => p.baseline == oldest - 1 && at == Cursor(newest, 0, 0)
       case Noting(_) => true
  }

  /** The newest page of an inbox, of however many items: its oldest and newest id. */
  lemma FirstPage(feed: Feed, size: nat, more: bool)
    requires Ascending(feed) && feed != [] && 0 < size
    ensures var page := PageUnder(feed, 0, size, more);
            && Above(page.items, 0) == |page.items| && page.items != []
            && page.items[|page.items| - 1] == feed[Lowered(|feed|, size)]
            && HighestOf(SortById(page.items)) == feed[|feed| - 1].id
  {
    var items := PageUnder(feed, 0, size, more).items;
    assert NewestFirst(feed, Lowered(|feed|, size), |feed|, items);
    HighestOfSlice(feed, Lowered(|feed|, size), |feed|, items);
  }

  lemma FetchIsFirstRead(p: Poll, feed: Feed, size: nat, more: bool)
    requires Ascending(feed) && feed != [] && 0 < size && p == Begun(p.conn, p.baseline) && p.conn.cursor.FirstPoll()
    ensures var q := Paged(p, PageUnder(feed, 0, size, more));
            q.phase.Landing? && FirstRead(q, feed[Lowered(|feed|, size)].id, feed[|feed| - 1].id)
  {
    FirstPage(feed, size, more);
    var page := PageUnder(feed, 0, size, more);
    assert [] + page.items[..|page.items|] == page.items;
  }

  /** A page with nothing on it, of an inbox with something in it, ends the poll. */
  lemma EmptyPageEndsThePoll(p: Poll, feed: Feed, more: bool, oldest: int)
    requires feed != [] && p == Begun(p.conn, p.baseline) && p.conn.cursor.FirstPoll()
    ensures FirstRead(Paged(p, PageUnder(feed, 0, 0, more)), oldest, 1)
  {
    var page := PageUnder(feed, 0, 0, more);
    assert |page.items| == 0 && page.hasMore;
  }

  /** While it is in flight, nothing but its own steps moves a poll, and none of them forgets the page. */
  lemma FirstReadStays(s: State, e: Event, pid: nat, oldest: int, newest: int)
    requires Enabled(s, e) && pid in s.polls && FirstRead(s.polls[pid], oldest, newest)
    requires pid in Step(s, e).polls
    ensures FirstRead(Step(s, e).polls[pid], oldest, newest) && Step(s, e).polls[pid].conn == s.polls[pid].conn
  {
  }

  lemma {:induction false} FirstReadAtTheEnd(s: State, events: seq<Event>, u: State, pid: nat, oldest: int, newest: int)
    requires Run(s, events, u) && InFlight(s, events, pid) && FirstRead(s.polls[pid], oldest, newest)
    ensures pid in u.polls && FirstRead(u.polls[pid], oldest, newest) && u.polls[pid].conn == s.polls[pid].conn
    decreases |events|
  {
    if events != [] {
      FirstReadStays(s, events[0], pid, oldest, newest);
      FirstReadAtTheEnd(Step(s, events[0]), events[1..], u, pid, oldest, newest);
    }
  }

  /** A first poll's one request has been answered, and `u` is where it is about to save what it read. */
  ghost predicate AboutToSave(s: State, pid: nat, size: nat, more: bool, events: seq<Event>, u: State) {
    && pid in s.polls && s.polls[pid] == Begun(s.polls[pid].conn, s.polls[pid].baseline)
    && s.polls[pid].conn.cursor.FirstPoll()
    && Enabled(s, FetchPage(pid, size, more))
    && Run(Step(s, FetchPage(pid, size, more)), events, u) && InFlight(Step(s, FetchPage(pid, size, more)), events, pid)
    && pid in u.polls && u.polls[pid].phase.Saving? && Matches(u.table, u.polls[pid].conn)
  }

  /** The row reads on from this id, over this baseline. */
  ghost predicate Fixed(v: State, conn: Row, newest: int, baseline: int) {
    && At(v, conn.member, conn.id, conn.baseUrl) && v.table.rows[conn.member].cursor == Cursor(newest, 0, 0)
    && conn.member in v.baselines && v.baselines[conn.member] == baseline
  }

  /** A poll about to save was answered a page with something on it. */
  lemma SavedPageHasItems(s: State, pid: nat, size: nat, more: bool, feed: Feed, events: seq<Event>, u: State)
    requires AboutToSave(s, pid, size, more, events, u)
    requires feed == FeedOf(s.world, AccountOf(s.polls[pid].conn)) && feed != []
    ensures 0 < size
  {
    if size == 0 {
      var t := Step(s, FetchPage(pid, size, more));
      EmptyPageEndsThePoll(s.polls[pid], feed, more, 1);
      EmptyPageEndsThePoll(s.polls[pid], feed, more, 2);
      FirstReadAtTheEnd(t, events, u, pid, 1, 1);
      FirstReadAtTheEnd(t, events, u, pid, 2, 1);
      assert false;
    }
  }

  /** The page fixes the baseline when its poll saves: as many ids as it held lie above it, and the rest under. */
  lemma SaveFixesTheBaseline(s: State, pid: nat, size: nat, more: bool, conn: Row, feed: Feed, events: seq<Event>, u: State,
                             account: string)
    requires Reachable(s) && AboutToSave(s, pid, size, more, events, u)
    requires conn == s.polls[pid].conn && feed == FeedOf(s.world, AccountOf(conn)) && feed != []
    ensures Ascending(feed) && 0 < size
    ensures Fixed(Step(u, Save(pid, account)), conn, feed[|feed| - 1].id, feed[Lowered(|feed|, size)].id - 1)
  {
    var p := s.polls[pid];
    SavedPageHasItems(s, pid, size, more, feed, events, u);
    var oldest, newest := feed[Lowered(|feed|, size)].id, feed[|feed| - 1].id;
    ReachableIsSound(s);
    assert PollKnows(s.world, p);
    FetchIsFirstRead(p, feed, size, more);
    var t := Step(s, FetchPage(pid, size, more));
    FirstReadAtTheEnd(t, events, u, pid, oldest, newest);
    LeadsOneStep(s, FetchPage(pid, size, more));
    LeadsOn(s, t, u);
    LeadsReachable(s, u);
    ReachableIsSound(u);
    SaveOfFirstRead(u, pid, account, oldest, newest);
  }

  lemma SaveOfFirstRead(u: State, pid: nat, account: string, oldest: int, newest: int)
    requires PollsCurrent(u) && Enabled(u, Save(pid, account)) && Matches(u.table, u.polls[pid].conn)
    requires FirstRead(u.polls[pid], oldest, newest)
    ensures Fixed(Step(u, Save(pid, account)), u.polls[pid].conn, newest, oldest - 1)
  {
    assert PollCurrent(u, u.polls[pid]);
  }

  /** A first poll of an empty inbox saves nothing it can be held to: the row stays unread and its baseline where it was. */
  lemma EmptyFirstPollFixesNothing(p: Poll)
    requires p == Begun(p.conn, p.baseline) && p.conn.cursor.FirstPoll()
    ensures var landed := Paged(p, PageOf([], 0));
            landed.phase.Landing? && landed.phase.todo == []
            && Concluded(landed).phase == Saving(UNREAD_ACCOUNT) && Concluded(landed).baseline == p.baseline
  {
    var closed := WalkResult([], true, 0);
    var page := PageOf([], 0);
    assert |page.items| == 0 && !page.hasMore;
    EmptyPageEndsAWalk(page, closed);
    assert p.conn.cursor == UNREAD_ACCOUNT && Until(true, UNREAD_ACCOUNT) == 0;
    var landed := p.(requests := 1, phase := Landing(true, UNREAD_ACCOUNT, closed, [], 0));
    assert Paged(p, page) == landed;
    EmptyLandingConcludes(landed, closed);
  }

  lemma EmptyPageEndsAWalk(page: Page, closed: WalkResult)
    requires page.items == [] && !page.hasMore && closed == WalkResult([], true, 0)
    ensures AbsorbPage(NOTHING_FETCHED, page, 0) == Finished(closed)
  {
    var taken := page.items[..Above(page.items, 0)];
    assert |NOTHING_FETCHED.items + taken| == 0;
  }

  lemma EmptyLandingConcludes(p: Poll, closed: WalkResult)
    requires closed == WalkResult([], true, 0) && p.phase == Landing(true, UNREAD_ACCOUNT, closed, [], 0)
    ensures Concluded(p).phase == Saving(UNREAD_ACCOUNT) && Concluded(p).baseline == p.baseline
  {
  }

  // ------------------------------------------------------------------
  // Nothing under a fixed baseline is ever looked at again
  // ------------------------------------------------------------------

  /** A cursor past its first poll never reaches under the baseline. */
  predicate Low(baseline: int, c: Cursor) {
    c.FirstPoll() || baseline <= c.floor
  }

  ghost predicate PollLow(p: Poll) {
    && Low(p.baseline, p.conn.cursor)
    && match p.phase
       case Walking(_, at, _, _) => Low(p.baseline, at)
       case Landing(_, at, _, _, _) => Low(p.baseline, at)
       case Saving(at) => Low(p.baseline, at)
       case Noting(_) => true
  }

  ghost predicate RowsLow(s: State) {
    forall m :: m in s.table.rows && m in s.baselines ==> Low(s.baselines[m], s.table.rows[m].cursor)
  }

  ghost predicate PollsLow(s: State) {
    forall pid :: pid in s.polls ==> PollLow(s.polls[pid])
  }

  lemma PagedLow(p: Poll, page: Page)
    requires p.phase.Walking? && PollLow(p)
    ensures PollLow(Paged(p, page))
  {
  }

  lemma ConcludedLow(feed: Feed, decided: set<Item>, p: Poll)
    requires PollSound(feed, decided, p) && p.phase.Landing? && p.phase.done == |p.phase.todo| && PollLow(p)
    ensures PollLow(Concluded(p))
  {
  }

  lemma StepKeepsRowsLow(s: State, e: Event)
    requires Enabled(s, e) && RowsLow(s) && PollsLow(s)
    ensures RowsLow(Step(s, e))
  {
    match e
    case Save(pid, _) => assert PollLow(s.polls[pid]);
    case _ =>
  }

  /** The poll a step moves on, if it moves one on. */
  predicate Moves(e: Event, pid: nat) {
    (e.Begin? || e.FetchPage? || e.Decide? || e.Conclude? || e.Fail?) && e.pid == pid
  }

  lemma OthersStand(s: State, e: Event, i: nat)
    requires Enabled(s, e) && i in Step(s, e).polls && !Moves(e, i)
    ensures i in s.polls && Step(s, e).polls[i] == s.polls[i]
  {
  }

  lemma StepKeepsPollLow(s: State, e: Event, i: nat)
    requires PollsKnow(s) && RowsSound(s) && Enabled(s, e) && RowsLow(s) && PollsLow(s)
    requires i in Step(s, e).polls
    ensures PollLow(Step(s, e).polls[i])
  {
    if !Moves(e, i) {
      OthersStand(s, e, i);
      assert PollLow(s.polls[i]);
    } else if e.Begin? {
      BegunLow(s, i, e.member);
    } else if e.FetchPage? {
      FetchLow(s, i, e.size, e.more);
    } else if e.Conclude? {
      ConcludeLow(s, i);
    } else if e.Decide? {
      DecideLow(s, i, e.verdict);
    } else {
      FailLow(s, i, e.cause);
    }
  }

  lemma DecideLow(s: State, pid: nat, verdict: Verdict)
    requires PollsLow(s) && Enabled(s, Decide(pid, verdict))
    ensures PollLow(Step(s, Decide(pid, verdict)).polls[pid])
  {
    assert PollLow(s.polls[pid]);
  }

  lemma FailLow(s: State, pid: nat, cause: Error)
    requires PollsLow(s) && Enabled(s, Fail(pid, cause))
    ensures PollLow(Step(s, Fail(pid, cause)).polls[pid])
  {
    assert PollLow(s.polls[pid]);
  }

  lemma BegunLow(s: State, pid: nat, m: string)
    requires RowsSound(s) && RowsLow(s) && Enabled(s, Begin(pid, m))
    ensures PollLow(Step(s, Begin(pid, m)).polls[pid])
  {
    assert RowSound(s, m);
  }

  lemma FetchLow(s: State, pid: nat, size: nat, more: bool)
    requires PollsLow(s) && Enabled(s, FetchPage(pid, size, more))
    ensures PollLow(Step(s, FetchPage(pid, size, more)).polls[pid])
  {
    var p := s.polls[pid];
    assert PollLow(p);
    PagedLow(p, PageUnder(FeedOf(s.world, AccountOf(p.conn)), Before(From(p.phase.forward, p.phase.at), p.phase.walk), size, more));
  }

  lemma ConcludeLow(s: State, pid: nat)
    requires PollsKnow(s) && PollsLow(s) && Enabled(s, Conclude(pid))
    ensures PollLow(Step(s, Conclude(pid)).polls[pid])
  {
    var a := AccountOf(s.polls[pid].conn);
    assert PollKnows(s.world, s.polls[pid]) && PollLow(s.polls[pid]);
    ConcludedLow(FeedOf(s.world, a), DecidedItems(s.world, a), s.polls[pid]);
  }

  lemma StepKeepsPollsLow(s: State, e: Event)
    requires PollsKnow(s) && RowsSound(s) && Enabled(s, e) && RowsLow(s) && PollsLow(s)
    ensures PollsLow(Step(s, e))
  {
    forall i | i in Step(s, e).polls ensures PollLow(Step(s, e).polls[i]) {
      StepKeepsPollLow(s, e, i);
    }
  }

  lemma {:induction false} RunKeepsLow(s: State, events: seq<Event>, end: State)
    requires Run(s, events, end) && Inv(s) && RowsLow(s) && PollsLow(s)
    ensures RowsLow(end) && PollsLow(end)
    decreases |events|
  {
    if events != [] {
      StepKeepsRowsLow(s, events[0]);
      StepKeepsPollsLow(s, events[0]);
      StepKeepsInv(s, events[0]);
      RunKeepsLow(Step(s, events[0]), events[1..], end);
    }
  }

  lemma ReachableIsLow(s: State)
    requires Reachable(s)
    ensures RowsLow(s) && PollsLow(s)
  {
    var s0, events :| Init(s0) && Run(s0, events, s);
    InitIsSound(s0);
    RunKeepsLow(s0, events, s);
  }

  /** Everything a poll past the first ever lands lies above its baseline. */
  lemma PollsReadAboveTheirBaseline(s: State, pid: nat, item: Item)
    requires Reachable(s) && pid in s.polls && !s.polls[pid].conn.cursor.FirstPoll()
    requires s.polls[pid].phase.Landing? && item in s.polls[pid].phase.todo
    ensures s.polls[pid].baseline < item.id
  {
    ReachableIsSound(s);
    ReachableIsLow(s);
    var p := s.polls[pid];
    assert PollKnows(s.world, p) && PollLow(p);
    assert item in multiset(p.phase.todo);
    assert item in p.phase.result.items;
  }

  /** A poll past the first keeps the baseline it began with. */
  lemma {:induction false} BaselineInFlight(s: State, events: seq<Event>, u: State, pid: nat)
    requires Run(s, events, u) && InFlight(s, events, pid) && !s.polls[pid].conn.cursor.FirstPoll() && Inv(s)
    ensures pid in u.polls && u.polls[pid].conn == s.polls[pid].conn && u.polls[pid].baseline == s.polls[pid].baseline
    decreases |events|
  {
    if events != [] {
      assert PollKnows(s.world, s.polls[pid]);
      BaselineStays(s, events[0], pid);
      StepKeepsInv(s, events[0]);
      BaselineInFlight(Step(s, events[0]), events[1..], u, pid);
    }
  }

  lemma BaselineStays(s: State, e: Event, pid: nat)
    requires Enabled(s, e) && pid in s.polls && pid in Step(s, e).polls && PollKnows(s.world, s.polls[pid])
    requires !s.polls[pid].conn.cursor.FirstPoll()
    ensures Step(s, e).polls[pid].conn == s.polls[pid].conn && Step(s, e).polls[pid].baseline == s.polls[pid].baseline
  {
  }

  // ------------------------------------------------------------------
  // Exactly what is never promised
  // ------------------------------------------------------------------

  /** How many of the ids issued so far are newer than position `i`. */
  function Newer(feed: Feed, i: nat): int { |feed| - 1 - i }

  /**
   THE BASELINE, EXACTLY AND FOR GOOD. Take the first poll that saves a walk which
   found anything, and the inbox as it stood when that poll's page was fetched, with
   room for `size` ids on it (50, on a full page). At any later moment of
   the row's life on this deployment, an id of that inbox lies under the baseline if
   and only if at least `size` newer ids stood above it then; and every other one has
   been passed by the cursor, so it is not lost.
   */
  lemma UnderTheBaselineForGood(s: State, pid: nat, size: nat, more: bool, conn: Row, feed: Feed, events: seq<Event>, u: State,
                                account: string, later: seq<Event>, end: State, i: nat)
    requires Reachable(s) && AboutToSave(s, pid, size, more, events, u)
    requires conn == s.polls[pid].conn && feed == FeedOf(s.world, AccountOf(conn)) && i < |feed|
    requires Run(Step(u, Save(pid, account)), later, end)
    requires StaysAt(Step(u, Save(pid, account)), later, conn.member, conn.id, conn.baseUrl)
    ensures At(end, conn.member, conn.id, conn.baseUrl) && conn.member in end.baselines
    ensures var c, baseline := end.table.rows[conn.member].cursor, end.baselines[conn.member];
      && (feed[i].id <= baseline <==> size <= Newer(feed, i))
      && (Newer(feed, i) < size ==> Settles(c, baseline, feed[i].id))
  {
    SaveFixesTheBaseline(s, pid, size, more, conn, feed, events, u, account);
    SavedIsReachable(s, pid, size, more, events, u, account);
    StaysFixed(Step(u, Save(pid, account)), later, end, conn, feed[|feed| - 1].id, feed[Lowered(|feed|, size)].id - 1);
    OnThePage(feed, size, i);
  }

  lemma OnThePage(feed: Feed, size: nat, i: nat)
    requires Ascending(feed) && i < |feed| && 0 < size
    ensures feed[i].id <= feed[Lowered(|feed|, size)].id - 1 <==> size <= Newer(feed, i)
    ensures 0 < feed[i].id <= feed[|feed| - 1].id
  {
  }

  lemma StaysFixed(v: State, later: seq<Event>, end: State, conn: Row, newest: int, baseline: int)
    requires Reachable(v) && Run(v, later, end) && StaysAt(v, later, conn.member, conn.id, conn.baseUrl)
    requires Fixed(v, conn, newest, baseline) && 0 < newest
    ensures At(end, conn.member, conn.id, conn.baseUrl) && newest <= end.table.rows[conn.member].cursor.floor
    ensures conn.member in end.baselines && end.baselines[conn.member] == baseline
  {
    ReachableIsSound(v);
    CursorsOnlyAdvance(v, later, end, conn.member, conn.id, conn.baseUrl);
  }

  /** The cursor is past the id, and the id is above the baseline. */
  predicate Settles(c: Cursor, baseline: int, id: int) {
    baseline < id <= c.floor
  }

  lemma SavedIsReachable(s: State, pid: nat, size: nat, more: bool, events: seq<Event>, u: State, account: string)
    requires Reachable(s) && AboutToSave(s, pid, size, more, events, u)
    ensures Reachable(Step(u, Save(pid, account)))
  {
    LeadsOneStep(s, FetchPage(pid, size, more));
    LeadsOn(s, Step(s, FetchPage(pid, size, more)), u);
    LeadsOneStep(u, Save(pid, account));
    LeadsOn(s, u, Step(u, Save(pid, account)));
    LeadsReachable(s, Step(u, Save(pid, account)));
  }

  /**
   And no poll begun after that save ever lands an id under it, whatever else
   happens: such a poll's own walks stop above the baseline.
   */
  lemma NobodyLooksUnder(v: State, m: string, pid: nat, later: seq<Event>, end: State, item: Item)
    requires Reachable(v) && Enabled(v, Begin(pid, m)) && m in v.baselines && !v.table.rows[m].cursor.FirstPoll()
    requires Run(Step(v, Begin(pid, m)), later, end) && InFlight(Step(v, Begin(pid, m)), later, pid)
    requires pid in end.polls && end.polls[pid].phase.Landing? && item in end.polls[pid].phase.todo
    ensures v.baselines[m] < item.id
  {
    var begun := Step(v, Begin(pid, m));
    LeadsOneStep(v, Begin(pid, m));
    LeadsReachable(v, begun);
    ReachableIsSound(begun);
    BaselineInFlight(begun, later, end, pid);
    LeadsReachable(begun, end);
    PollsReadAboveTheirBaseline(end, pid, item);
  }
}
