/** What one poll promises, whatever arrives, fails or is refused while it runs. */
module RelayPollSafety {
  import opened Wrappers
  import opened RelayErrors
  import opened RelayFeed
  import opened RelayInbox
  import opened RelayWalk
  import opened RelayCursor
  import opened RelayRecord
  import opened RelayTable
  import opened RelayPollSteps
  import opened RelayLanding
  import opened RelayPoll

  function DecidedSet(d: Desk, conn: Row, workspace: string, feed: Feed): set<Item> {
    set it | it in feed && DecidedAt(d, conn, workspace, it)
  }

  /** A finished walk of the newest region skipped nothing above `until`, and of full pages its item count bounds how many. */
  lemma NewestWalkComplete(p: Provider, until: int, budget: nat)
    requires Orderly(p) && 0 <= until && 0 < budget
    ensures var (after, result) := Walk(p, until, 0, budget, NOTHING_FETCHED);
            && Orderly(after) && Grows(p.feed, after.feed)
            && p.requests < after.requests <= p.requests + budget
            && (AllHealthy(p.turns) ==> result.Ok? && AllHealthy(after.turns))
            && (result.Ok? ==> Complete(after.feed, until, HighestOf(SortById(result.value.items)), result.value))
            && (result.Ok? && FullPages(p.turns) ==> after.requests - p.requests <= Spent(result.value.items))
            && (FullPages(p.turns) ==> FullPages(after.turns))
  {
    var (after, result) := Walk(p, until, 0, budget, NOTHING_FETCHED);
    var hi := Start(NextFeed(p), 0);
    WalkHasNoHole(p, until, 0, budget);
    NextFeedGrows(p);
    if FullPages(p.turns) {
      WalkIsASlice(p, until, 0, budget);
    }
    if result.Ok? {
      CompleteNewest(NextFeed(p), after.feed, until, hi - |result.value.items|, hi, result.value);
    }
  }

  lemma CompleteNewest(first: Feed, feed: Feed, until: int, lo: nat, hi: nat, result: WalkResult)
    requires Grows(first, feed) && hi == |first| && 0 <= until && Slice(feed, until, lo, hi, result)
    requires if result.closed then lo > 0 ==> first[lo - 1].id <= until else lo < hi
    ensures Complete(feed, until, HighestOf(SortById(result.items)), result)
  {
    HighestOfSlice(feed, lo, hi, result.items);
    if lo < hi {
      assert lo > 0 ==> feed[lo - 1] == first[lo - 1];
      SliceIsComplete(feed, until, lo, hi, result, feed[hi - 1].id);
    } else {
      NothingNewIsComplete(feed, until);
      assert result == WalkResult([], true, 0);
    }
  }

  /** So did a finished walk into the backlog. */
  lemma BacklogWalkComplete(p: Provider, at: Cursor, budget: nat)
    requires Orderly(p) && at.Shape() && at.Unread() && at.gap in Ids(p.feed) && 0 < budget
    ensures var (after, result) := Walk(p, at.floor, at.gap, budget, NOTHING_FETCHED);
            && Orderly(after) && Grows(p.feed, after.feed)
            && after.requests <= p.requests + budget
            && (AllHealthy(p.turns) ==> result.Ok? && AllHealthy(after.turns))
            && (result.Ok? ==> Complete(after.feed, at.floor, at.gap - 1, result.value))
  {
    var (after, result) := Walk(p, at.floor, at.gap, budget, NOTHING_FETCHED);
    var first := NextFeed(p);
    var hi := Start(first, at.gap);
    WalkHasNoHole(p, at.floor, at.gap, budget);
    NextFeedGrows(p);
    if result.Ok? {
      GapStands(p.feed, first, after.feed, at.gap);
      BacklogReached(first, after.feed, at, hi, result.value);
    }
  }

  /** The position of an id stays through two rounds of arrivals. */
  lemma GapStands(feed: Feed, first: Feed, later: Feed, gap: int)
    requires Grows(feed, first) && Grows(first, later) && gap in Ids(feed) && 0 < gap
    ensures CountBelow(first, gap) == CountBelow(later, gap)
  {
    IssuedStable(feed, first, gap);
    var it :| it in feed && it.id == gap;
    assert it in first;
    IssuedStable(first, later, gap);
  }

  lemma BacklogReached(first: Feed, feed: Feed, at: Cursor, hi: nat, result: WalkResult)
    requires Grows(first, feed) && Ascending(first) && hi == CountBelow(feed, at.gap) && hi <= |first|
    requires Reached(first, feed, at.floor, hi, hi, result)
    ensures Complete(feed, at.floor, at.gap - 1, result)
  {
    CompleteBacklog(first, feed, at, hi - |result.items|, hi, result);
  }

  lemma CompleteBacklog(first: Feed, feed: Feed, at: Cursor, lo: nat, hi: nat, result: WalkResult)
    requires Grows(first, feed) && hi == CountBelow(feed, at.gap) && hi <= |first|
    requires Slice(feed, at.floor, lo, hi, result)
    requires if result.closed then lo > 0 ==> first[lo - 1].id <= at.floor else lo < hi
    ensures Complete(feed, at.floor, at.gap - 1, result)
  {
    assert lo > 0 ==> feed[lo - 1] == first[lo - 1];
    SliceIsComplete(feed, at.floor, lo, hi, result, at.gap - 1);
  }

  lemma LandWalkDecides(d: Desk, users: Directory, conn: Row, member: ProviderUser, items: seq<Item>)
    ensures var (e, landed) := LandWalkOn(d, users, conn, member, items);
            && DeskGrows(d, e)
            && (landed.Ok? ==>
                  && landed.value == HighestOf(SortById(items))
                  && forall it :: it in items ==> DecidedAt(e, conn, member.workspaceId, it))
  {
    var todo := SortById(items);
    LandAllDecides(d, conn, users, member, todo);
    forall it | it in items ensures it in todo {
      assert it in multiset(todo);
    }
  }

  /** The baseline a poll leaves behind: its own when this is the first that reads anything. */
  function BaselineOf(p: Provider, conn: Row, baseline: int): int {
    var walked := Walk(p, conn.cursor.ForwardFrom(), 0, conn.cursor.Budget(), NOTHING_FETCHED).1;
    if walked.Ok? then BaselineAfter(conn.cursor, baseline, walked.value) else baseline
  }

  ghost predicate SoundAt(d: Desk, conn: Row, workspace: string, feed: Feed, baseline: int, c: Cursor) {
    Sound(feed, DecidedSet(d, conn, workspace, feed), baseline, c)
  }

  lemma SoundAtGrows(d: Desk, e: Desk, conn: Row, workspace: string, feed: Feed, later: Feed, baseline: int, c: Cursor)
    requires DeskGrows(d, e) && Grows(feed, later) && SoundAt(d, conn, workspace, feed, baseline, c)
    ensures SoundAt(e, conn, workspace, later, baseline, c)
  {
  }

  /** Where a region's walk and landing leave things, whether or not they failed. */
  ghost predicate Goes(d: Desk, p: Provider, e: Desk, after: Provider, pages: int) {
    && DeskGrows(d, e)
    && Orderly(after) && Grows(p.feed, after.feed)
    && p.requests <= after.requests <= p.requests + pages
  }

  lemma NewestGoes(d: Desk, p: Provider, users: Directory, conn: Row, member: ProviderUser)
    requires Orderly(p) && 0 <= conn.cursor.ForwardFrom()
    ensures var (e, after, newest) := ReadNewestOn(d, p, users, conn, member);
            && Goes(d, p, e, after, conn.cursor.Budget())
            && p.requests < after.requests
            && (newest.Ok? && newest.value.1 > 0 ==> newest.value.0.Unread() && newest.value.1 < conn.cursor.Budget())
            && (FullPages(p.turns) ==> FullPages(after.turns))
            && (newest.Ok? && FullPages(p.turns) ==> after.requests + newest.value.1 <= p.requests + conn.cursor.Budget())
  {
    var c := conn.cursor;
    var (after, walked) := Walk(p, c.ForwardFrom(), 0, c.Budget(), NOTHING_FETCHED);
    NewestWalkComplete(p, c.ForwardFrom(), c.Budget());
    if walked.Ok? {
      LandWalkDecides(d, users, conn, member, walked.value.items);
    }
  }

  /** The newest region moves the cursor only over what is decided. */
  lemma NewestIsSound(d: Desk, p: Provider, users: Directory, conn: Row, member: ProviderUser, baseline: int,
                      e: Desk, after: Provider, newest: Result<(Cursor, nat), Error>)
    requires Orderly(p) && SoundAt(d, conn, member.workspaceId, p.feed, baseline, conn.cursor)
    requires (e, after, newest) == ReadNewestOn(d, p, users, conn, member) && newest.Ok?
    ensures SoundAt(e, conn, member.workspaceId, after.feed, BaselineOf(p, conn, baseline), newest.value.0)
    ensures Advances(conn.cursor, newest.value.0)
  {
    var c := conn.cursor;
    NewestWalkComplete(p, c.ForwardFrom(), c.Budget());
    var walk := Walk(p, c.ForwardFrom(), 0, c.Budget(), NOTHING_FETCHED).1.value;
    LandWalkDecides(d, users, conn, member, walk.items);
    NewestMoves(d, e, conn, member.workspaceId, p.feed, after.feed, baseline, walk);
  }

  lemma NewestMoves(d: Desk, e: Desk, conn: Row, workspace: string, feed: Feed, later: Feed, baseline: int, result: WalkResult)
    requires DeskGrows(d, e) && Grows(feed, later) && SoundAt(d, conn, workspace, feed, baseline, conn.cursor)
    requires Complete(later, conn.cursor.ForwardFrom(), HighestOf(SortById(result.items)), result)
    requires forall it :: it in result.items ==> DecidedAt(e, conn, workspace, it)
    ensures var at := AfterForward(conn.cursor, HighestOf(SortById(result.items)), result);
            && SoundAt(e, conn, workspace, later, BaselineAfter(conn.cursor, baseline, result), at)
            && Advances(conn.cursor, at)
  {
    var c, todo := conn.cursor, SortById(result.items);
    SoundAtGrows(d, e, conn, workspace, feed, later, baseline, c);
    HighestIsIssued(later, Landing(true, c, result, todo, 0));
    ForwardCovers(later, DecidedSet(e, conn, workspace, later), baseline, c, HighestOf(todo), result);
  }

  lemma BacklogGoes(d: Desk, p: Provider, users: Directory, conn: Row, member: ProviderUser, at: Cursor, budget: nat)
    requires Orderly(p) && at.Shape() && at.Unread() && at.gap in Ids(p.feed) && 0 < budget
    ensures var (e, after, _) := FillGapOn(d, p, users, conn, member, at, budget); Goes(d, p, e, after, budget)
  {
    BacklogWalkComplete(p, at, budget);
    var walked := Walk(p, at.floor, at.gap, budget, NOTHING_FETCHED).1;
    WalkHasNoHole(p, at.floor, at.gap, budget);
    if walked.Ok? {
      LandWalkDecides(d, users, conn, member, walked.value.items);
    }
  }

  /** So does the backlog. */
  lemma BacklogIsSound(d: Desk, p: Provider, users: Directory, conn: Row, member: ProviderUser, baseline: int,
                       at: Cursor, budget: nat, e: Desk, after: Provider, moved: Result<Cursor, Error>)
    requires Orderly(p) && 0 < budget && SoundAt(d, conn, member.workspaceId, p.feed, baseline, at) && at.Unread()
    requires (e, after, moved) == FillGapOn(d, p, users, conn, member, at, budget) && moved.Ok?
    ensures SoundAt(e, conn, member.workspaceId, after.feed, baseline, moved.value)
    ensures Advances(at, moved.value)
  {
    BacklogWalkComplete(p, at, budget);
    var walk := Walk(p, at.floor, at.gap, budget, NOTHING_FETCHED).1.value;
    LandWalkDecides(d, users, conn, member, walk.items);
    SoundAtGrows(d, e, conn, member.workspaceId, p.feed, after.feed, baseline, at);
    BackfillCovers(after.feed, DecidedSet(e, conn, member.workspaceId, after.feed), baseline, at, walk);
  }

  lemma DecideGoes(d: Desk, p: Provider, around: Surroundings, conn: Row, member: ProviderUser, baseline: int)
    requires Orderly(p) && SoundAt(d, conn, member.workspaceId, p.feed, baseline, conn.cursor)
    ensures var (e, after, decided) := DecideOn(d, p, around, conn, member);
            && Goes(d, p, e, after, Twice(conn.cursor.Budget()))
            && (FullPages(p.turns) ==> after.requests <= p.requests + conn.cursor.Budget())
  {
    NewestGoes(d, p, around.newest, conn, member);
    var (mid, after, newest) := ReadNewestOn(d, p, around.newest, conn, member);
    if newest.Ok? && newest.value.1 > 0 {
      NewestIsSound(d, p, around.newest, conn, member, baseline, mid, after, newest);
      BacklogGoes(mid, after, around.backlog, conn, member, newest.value.0, newest.value.1);
    }
  }

  lemma DecideIsSound(d: Desk, p: Provider, around: Surroundings, conn: Row, member: ProviderUser, baseline: int,
                      e: Desk, after: Provider, decided: Result<Cursor, Error>)
    requires Orderly(p) && SoundAt(d, conn, member.workspaceId, p.feed, baseline, conn.cursor)
    requires (e, after, decided) == DecideOn(d, p, around, conn, member) && decided.Ok?
    ensures SoundAt(e, conn, member.workspaceId, after.feed, BaselineOf(p, conn, baseline), decided.value)
    ensures Advances(conn.cursor, decided.value)
  {
    var (mid, half, newest) := ReadNewestOn(d, p, around.newest, conn, member);
    NewestGoes(d, p, around.newest, conn, member);
    NewestIsSound(d, p, around.newest, conn, member, baseline, mid, half, newest);
    if newest.value.1 > 0 {
      BacklogIsSound(mid, half, around.backlog, conn, member, BaselineOf(p, conn, baseline),
                     newest.value.0, newest.value.1, e, after, decided);
    }
  }

  /**
   ONE POLL, whatever happens around it and whatever pages it is answered. Of full
   pages it stays in its budget, and of any in less than two. When it fails it
   leaves every row as it was, though what landed stays. When it succeeds,
   everything landed before the one write it makes, and that write moves the row
   to a cursor under which nothing is lost.
   */
  lemma PollIsSafe(d: Desk, p: Provider, around: Surroundings, conn: Row, baseline: int)
    returns (landed: Desk)
    requires Orderly(p)
    requires around.member.Ok? ==> SoundAt(d, conn, around.member.value.workspaceId, p.feed, baseline, conn.cursor)
    ensures var (e, after, polled) := PollOn(d, p, around, conn);
            && DeskGrows(d, landed)
            && p.requests <= after.requests <= p.requests + Twice(conn.cursor.Budget())
            && (FullPages(p.turns) ==> after.requests <= p.requests + conn.cursor.Budget())
            && match polled
               case Err(_) => e == landed
               case Ok(at) =>
                 var member := around.member.value;
                 && SoundAt(landed, conn, member.workspaceId, after.feed, BaselineOf(p, conn, baseline), at)
                 && Advances(conn.cursor, at)
                 && e == landed.(table := SaveCursorOn(landed.table, conn, member.name, member.workspaceId, at))
  {
    landed := d;
    if around.member.Ok? {
      var member := around.member.value;
      DecideGoes(d, p, around, conn, member, baseline);
      var (e, after, decided) := DecideOn(d, p, around, conn, member);
      landed := e;
      if decided.Ok? {
        DecideIsSound(d, p, around, conn, member, baseline, e, after, decided);
      }
    }
  }
}
