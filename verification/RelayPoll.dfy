/**
 One connection's whole poll (extensions/relay-probe/poll.go), from the row it
 read to the cursor it writes: the method and the function it computes. What that
 function promises is in RelayPollSafety.
 */
module RelayPoll {
  import opened Wrappers
  import opened RelayErrors
  import opened RelayInbox
  import opened RelayCursor
  import opened RelayRecord
  import opened RelayTable
  import opened RelayLanding

  /**
   What a poll meets outside the inbox: the account its token opens, the two
   lookups of senders, and how the transaction that saves its cursor ends.
   */
  datatype Surroundings =
    Surroundings(member: Result<ProviderUser, Error>, newest: Directory, backlog: Directory, saving: Option<Error>)

  function FillGapOn(d: Desk, p: Provider, users: Directory, conn: Row, member: ProviderUser, at: Cursor, budget: nat)
    : (Desk, Provider, Result<Cursor, Error>)
  {
    var (after, walked) := Walk(p, at.floor, at.gap, budget, NOTHING_FETCHED);
    match walked
    case Err(error) => (d, after, Err(error))
    case Ok(backfill) =>
      var (end, landed) := LandWalkOn(d, users, conn, member, backfill.items);
      (end, after, match landed case Err(error) => Err(error) case Ok(_) => Ok(AfterBackfill(at, backfill)))
  }

  /** The newest region: the cursor after it, and the pages it leaves to the backlog. */
  function ReadNewestOn(d: Desk, p: Provider, users: Directory, conn: Row, member: ProviderUser)
    : (Desk, Provider, Result<(Cursor, nat), Error>)
  {
    var budget := conn.cursor.Budget();
    var (after, walked) := Walk(p, conn.cursor.ForwardFrom(), 0, budget, NOTHING_FETCHED);
    match walked
    case Err(error) => (d, after, Err(error))
    case Ok(forward) =>
      var (end, landed) := LandWalkOn(d, users, conn, member, forward.items);
      match landed
      case Err(error) => (end, after, Err(error))
      case Ok(processedTo) =>
        var at := AfterForward(conn.cursor, processedTo, forward);
        (end, after, Ok((at, BackfillBudget(at, forward.items, budget))))
  }

  /** The poll up to the write of its cursor: the newest region first, always. */
  function DecideOn(d: Desk, p: Provider, around: Surroundings, conn: Row, member: ProviderUser)
    : (Desk, Provider, Result<Cursor, Error>)
  {
    var (mid, after, newest) := ReadNewestOn(d, p, around.newest, conn, member);
    match newest
    case Err(error) => (mid, after, Err(error))
    case Ok((at, left)) =>
      if left > 0 then FillGapOn(mid, after, around.backlog, conn, member, at, left) else (mid, after, Ok(at))
  }

  /** The whole poll: the cursor is written after everything else, and only if nothing failed. */
  function PollOn(d: Desk, p: Provider, around: Surroundings, conn: Row): (Desk, Provider, Result<Cursor, Error>) {
    match around.member
    case Err(error) => (d, p, Err(error))
    case Ok(member) =>
      var (end, after, decided) := DecideOn(d, p, around, conn, member);
      match decided
      case Err(error) => (end, after, Err(error))
      case Ok(at) =>
        match around.saving
        case Some(error) => (end, after, Err(error))
        case None => (end.(table := SaveCursorOn(end.table, conn, member.name, member.workspaceId, at)), after, Ok(at))
  }

  method FillGap(rt: Runtime, api: Client, users: Directory, conn: Row, member: ProviderUser, at: Cursor, budget: nat)
    returns (moved: Result<Cursor, Error>)
    modifies rt, rt.table, api
    ensures (rt.View(), api.provider, moved)
         == FillGapOn(old(rt.View()), old(api.provider), users, conn, member, at, budget)
  {
    var walked := WalkInbox(api, at.floor, at.gap, budget);
    if walked.Err? {
      return Err(walked.error);
    }
    var landed := LandAll(rt, users, walked.value.items, conn, member);
    if landed.Err? {
      return Err(landed.error);
    }
    moved := Ok(AfterBackfill(at, walked.value));
  }

  method ReadNewest(rt: Runtime, api: Client, users: Directory, conn: Row, member: ProviderUser)
    returns (newest: Result<(Cursor, nat), Error>)
    modifies rt, rt.table, api
    ensures (rt.View(), api.provider, newest) == ReadNewestOn(old(rt.View()), old(api.provider), users, conn, member)
  {
    var at := conn.cursor;
    var budget := MAX_PAGES_PER_POLL;
    if at.FirstPoll() {
      budget := FIRST_POLL_PAGES;
    }
    assert budget == conn.cursor.Budget();
    var forward := WalkInbox(api, at.ForwardFrom(), 0, budget);
    if forward.Err? {
      return Err(forward.error);
    }
    var landed := LandAll(rt, users, forward.value.items, conn, member);
    if landed.Err? {
      return Err(landed.error);
    }
    at := AfterForward(at, landed.value, forward.value);
    newest := Ok((at, BackfillBudget(at, forward.value.items, budget)));
  }

  method PollConnection(rt: Runtime, api: Client, around: Surroundings, conn: Row) returns (polled: Result<Cursor, Error>)
    modifies rt, rt.table, api
    ensures (rt.View(), api.provider, polled) == PollOn(old(rt.View()), old(api.provider), around, conn)
  {
    if around.member.Err? {
      return Err(around.member.error);
    }
    var member := around.member.value;
    var newest := ReadNewest(rt, api, around.newest, conn, member);
    if newest.Err? {
      return Err(newest.error);
    }
    var (at, left) := newest.value;
    if left > 0 {
      var moved := FillGap(rt, api, around.backlog, conn, member, at, left);
      if moved.Err? {
        return moved;
      }
      at := moved.value;
    }
    if around.saving.Some? {
      return Err(around.saving.value);
    }
    rt.table.SaveCursor(conn, member.name, member.workspaceId, at);
    polled := Ok(at);
  }
}
