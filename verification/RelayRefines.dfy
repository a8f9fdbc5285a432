/**
 One poll as its methods run it is a run of the protocol's machine: request by
 request and item by item, with whatever arrives in between. What holds of every
 run of the machine therefore holds of the polls the methods make.
 */
module RelayRefines {
  import opened Wrappers
  import opened RelayErrors
  import opened RelayFeed
  import opened RelayInbox
  import opened RelayWalk
  import opened RelayCursor
  import opened RelayRecord
  import opened RelayTable
  import opened RelayPollSteps
  import opened RelayProtocol
  import opened RelayLanding
  import opened RelayPoll
  import opened RelayPollSafety
  import opened RelaySafety

  // ------------------------------------------------------------------
  // What a method's state is in the machine
  // ------------------------------------------------------------------

  /** The account's box holds this feed, of this workspace. */
  ghost predicate BoxIs(w: World, a: Account, feed: Feed, workspace: string) {
    a in w.boxes && w.boxes[a].feed == feed && w.boxes[a].workspace == workspace
  }

  /** No other inbox of the workspace has an id of this feed. */
  ghost predicate Clear(w: World, a: Account, feed: Feed) {
    forall it :: it in feed ==> FreshId(w, a, it.id)
  }

  /** The provider's script can still happen: its ids grow, and no other inbox has them. */
  ghost predicate ScriptFits(w: World, a: Account, p: Provider, workspace: string) {
    BoxIs(w, a, p.feed, workspace) && Orderly(p) && Clear(w, a, Eventually(p.feed, p.turns))
  }

  /** The desk is the machine's table and core. */
  ghost predicate DeskIs(s: State, d: Desk) {
    s.table == d.table && s.world.landed == d.landed && s.world.skipped == d.skipped
  }

  /** The poll `pid` is at this phase, with this desk and this provider. */
  ghost predicate Stage(s: State, pid: nat, conn: Row, phase: Phase, d: Desk, p: Provider, workspace: string) {
    && pid in s.polls && s.polls[pid].conn == conn && s.polls[pid].phase == phase
    && DeskIs(s, d)
    && ScriptFits(s.world, AccountOf(conn), p, workspace)
  }

  // ------------------------------------------------------------------
  // A request
  // ------------------------------------------------------------------

  lemma ArriveOne(w: World, a: Account, item: Item, full: Feed, workspace: string)
    requires a in w.boxes && w.boxes[a].workspace == workspace
    requires Ascending(full) && w.boxes[a].feed + [item] <= full && Clear(w, a, full)
    ensures 0 < item.id && FreshId(w, a, item.id) && forall it :: it in FeedOf(w, a) ==> it.id < item.id
    ensures BoxIs(Arrived(w, a, item), a, w.boxes[a].feed + [item], workspace)
    ensures Clear(Arrived(w, a, item), a, full)
  {
    var n := |w.boxes[a].feed|;
    assert full[n] == item && item in full;
    forall it | it in w.boxes[a].feed ensures it.id < item.id {
      var i :| 0 <= i < n && w.boxes[a].feed[i] == it;
      assert full[i] == it;
    }
    forall it | it in full ensures FreshId(Arrived(w, a, item), a, it.id) {
      assert FreshId(w, a, it.id);
    }
  }

  /** What arrives before a request arrives in the machine. */
  lemma {:induction false} ArrivalsRun(s: State, a: Account, items: seq<Item>, full: Feed, workspace: string)
    returns (t: State)
    requires a in s.world.boxes && s.world.boxes[a].workspace == workspace
    requires Ascending(full) && s.world.boxes[a].feed + items <= full && Clear(s.world, a, full)
    ensures Leads(s, t) && t == s.(world := s.world.(boxes := t.world.boxes))
    ensures BoxIs(t.world, a, s.world.boxes[a].feed + items, workspace) && Clear(t.world, a, full)
    decreases |items|
  {
    var feed := s.world.boxes[a].feed;
    if items == [] {
      LeadsNowhere(s);
      assert feed + items == feed;
      t := s;
    } else {
      var item := items[0];
      assert feed + items == (feed + [item]) + items[1..];
      ArriveOne(s.world, a, item, full, workspace);
      var e := Arrive(a, item);
      LeadsOneStep(s, e);
      var mid := Step(s, e);
      t := ArrivalsRun(mid, a, items[1..], full, workspace);
      LeadsOn(s, mid, t);
    }
  }

  /** The request's turn in the machine, up to its answer. */
  lemma TurnArrives(s: State, pid: nat, conn: Row, phase: Phase, d: Desk, p: Provider, workspace: string, before: int)
    returns (t: State)
    requires Stage(s, pid, conn, phase, d, p, workspace)
    ensures Leads(s, t) && Stage(t, pid, conn, phase, d, Serve(p, before).0, workspace)
  {
    var a := AccountOf(conn);
    var full := Eventually(p.feed, p.turns);
    if p.turns == [] {
      LeadsNowhere(s);
      t := s;
    } else {
      EventuallyExtends(p.feed + p.turns[0].arrivals, p.turns[1..]);
      t := ArrivalsRun(s, a, p.turns[0].arrivals, full, workspace);
    }
  }

  /** A failure ends the poll in the machine. */
  lemma FailRuns(s: State, pid: nat, conn: Row, phase: Phase, d: Desk, p: Provider, workspace: string, error: Error)
    returns (t: State)
    requires Stage(s, pid, conn, phase, d, p, workspace) && !phase.Noting?
    ensures Leads(s, t) && Stage(t, pid, conn, Noting(error), d, p, workspace)
  {
    LeadsOneStep(s, Fail(pid, error));
    t := Step(s, Fail(pid, error));
  }

  /** A page answered is a fetch of it. */
  lemma PageRuns(s: State, pid: nat, conn: Row, phase: Phase, d: Desk, p: Provider, workspace: string, size: nat, more: bool)
    returns (t: State)
    requires Stage(s, pid, conn, phase, d, p, workspace) && phase.Walking?
    ensures var page := PageUnder(p.feed, Before(From(phase.forward, phase.at), phase.walk), size, more);
            var fetched := AbsorbPage(phase.walk, page, Until(phase.forward, phase.at));
            Leads(s, t) && Stage(t, pid, conn, PagedPhase(phase, fetched), d, p, workspace)
  {
    LeadsOneStep(s, FetchPage(pid, size, more));
    t := Step(s, FetchPage(pid, size, more));
  }

  /** One turn of the walk is one step of the machine, or its failure. */
  lemma FetchRuns(s: State, pid: nat, conn: Row, phase: Phase, d: Desk, p: Provider, workspace: string,
                  mid: Provider, fetched: Fetched)
    returns (t: State)
    requires Stage(s, pid, conn, phase, d, p, workspace) && phase.Walking?
    requires (mid, fetched) == Fetch(p, Until(phase.forward, phase.at), Before(From(phase.forward, phase.at), phase.walk), phase.walk)
    ensures Leads(s, t) && Stage(t, pid, conn, PagedPhase(phase, fetched), d, mid, workspace)
  {
    var before := Before(From(phase.forward, phase.at), phase.walk);
    var answer := Serve(p, before).1;
    var now := TurnArrives(s, pid, conn, phase, d, p, workspace, before);
    if answer.Ok? {
      ServeKeeps(p, before);
      t := PageRuns(now, pid, conn, phase, d, mid, workspace, NextPage(p).size, NextPage(p).more);
    } else {
      t := FailRuns(now, pid, conn, phase, d, mid, workspace, fetched.error);
    }
    LeadsOn(s, now, t);
  }

  /** Where a walk's answer leaves the poll. */
  function AfterWalk(phase: Phase, result: Result<WalkResult, Error>): Phase
    requires phase.Walking?
  {
    match result
    case Ok(walk) => Walked(phase, walk)
    case Err(error) => Noting(error)
  }

  /** The walk a phase is in the middle of. */
  function WalkOf(p: Provider, phase: Phase): (Provider, Result<WalkResult, Error>)
    requires phase.Walking?
  {
    Walk(p, Until(phase.forward, phase.at), Before(From(phase.forward, phase.at), phase.walk), phase.budget, phase.walk)
  }

  function FetchOf(p: Provider, phase: Phase): (Provider, Fetched)
    requires phase.Walking?
  {
    Fetch(p, Until(phase.forward, phase.at), Before(From(phase.forward, phase.at), phase.walk), phase.walk)
  }

  /** The walk's recursion is the phase's. */
  lemma WalkOfPaged(p: Provider, phase: Phase)
    requires phase.Walking? && 0 < phase.budget
    ensures var (mid, fetched) := FetchOf(p, phase);
            var paged := PagedPhase(phase, fetched);
            if paged.Walking?
            then 0 < paged.budget < phase.budget && WalkOf(p, phase) == WalkOf(mid, paged)
                 && paged.forward == phase.forward && paged.at == phase.at
            else WalkOf(p, phase).0 == mid && paged == AfterWalk(phase, WalkOf(p, phase).1)
  {
    var (mid, fetched) := FetchOf(p, phase);
    if fetched.Continues? && phase.budget == 1 {
      assert Walk(mid, Until(phase.forward, phase.at), fetched.walk.oldest, 0, fetched.walk) == (mid, Ok(fetched.walk));
    }
  }

  /** The whole walk is a run. */
  lemma {:induction false} WalkRuns(s: State, pid: nat, conn: Row, phase: Phase, d: Desk, p: Provider, workspace: string)
    returns (t: State)
    requires Stage(s, pid, conn, phase, d, p, workspace) && phase.Walking? && 0 < phase.budget
    ensures var (after, result) := WalkOf(p, phase);
            Leads(s, t) && Stage(t, pid, conn, AfterWalk(phase, result), d, after, workspace)
    decreases phase.budget
  {
    var (mid, fetched) := FetchOf(p, phase);
    t := FetchRuns(s, pid, conn, phase, d, p, workspace, mid, fetched);
    WalkOfPaged(p, phase);
    var paged := PagedPhase(phase, fetched);
    if paged.Walking? {
      var now := t;
      t := WalkRuns(now, pid, conn, paged, d, mid, workspace);
      LeadsOn(s, now, t);
    }
  }

  // ------------------------------------------------------------------
  // Landing
  // ------------------------------------------------------------------

  /** How the machine decides what the desk does with one item. */
  function VerdictOf(d: Desk, directory: Directory, member: ProviderUser, item: Item): Verdict {
    if RecordFor(item, SenderOf(directory, item), member, member.workspaceId).None? then Unrepresentable
    else match NextAnswer(d)
      case Accepted => Taken
      case Skipped => SkippedByTheCore
      case Refused(_) => RefusedByTheCore
  }

  /** One item decided about is one step. */
  lemma DecideRuns(s: State, pid: nat, conn: Row, phase: Phase, d: Desk, p: Provider, directory: Directory, member: ProviderUser,
                   e: Desk)
    returns (t: State)
    requires Stage(s, pid, conn, phase, d, p, member.workspaceId) && phase.Landing? && phase.done < |phase.todo|
    requires var item := phase.todo[phase.done];
             (e, None) == if Directed(item) then LandOneOn(d, conn, directory, member, item) else (d, None)
    ensures Leads(s, t) && Stage(t, pid, conn, phase.(done := phase.done + 1), e, p, member.workspaceId)
  {
    var item := phase.todo[phase.done];
    var verdict := VerdictOf(d, directory, member, item);
    LeadsOneStep(s, Decide(pid, verdict));
    VerdictDecides(s, conn, d, p, directory, member, item, e);
    t := Step(s, Decide(pid, verdict));
  }

  /** The verdict does to the machine what landing the item does to the desk. */
  lemma VerdictDecides(s: State, conn: Row, d: Desk, p: Provider, directory: Directory, member: ProviderUser, item: Item, e: Desk)
    requires DeskIs(s, d) && ScriptFits(s.world, AccountOf(conn), p, member.workspaceId)
    requires (e, None) == if Directed(item) then LandOneOn(d, conn, directory, member, item) else (d, None)
    ensures var u := DecideItem(s, conn, item, VerdictOf(d, directory, member, item));
            DeskIs(u, e) && u.world.boxes == s.world.boxes && u.polls == s.polls
  {
  }

  /** Where landing leaves the poll. */
  function AfterLanding(phase: Phase, failure: Option<Error>): Phase
    requires phase.Landing?
  {
    match failure
    case None => phase.(done := |phase.todo|)
    case Some(error) => Noting(error)
  }

  /** Landing the rest of what a walk brought is a run. */
  lemma {:induction false} LandRuns(s: State, pid: nat, conn: Row, phase: Phase, d: Desk, p: Provider, directory: Directory,
                                    member: ProviderUser)
    returns (t: State)
    requires Stage(s, pid, conn, phase, d, p, member.workspaceId) && phase.Landing? && phase.done <= |phase.todo|
    ensures var (e, _, failure) := LandAllOn(d, conn, directory, member, phase.todo[phase.done..]);
            Leads(s, t) && Stage(t, pid, conn, AfterLanding(phase, failure), e, p, member.workspaceId)
    decreases |phase.todo| - phase.done
  {
    var rest := phase.todo[phase.done..];
    if rest == [] {
      LeadsNowhere(s);
      t := s;
    } else {
      var item := rest[0];
      var (e, error) := if Directed(item) then LandOneOn(d, conn, directory, member, item) else (d, None);
      if error.Some? {
        assert DeskIs(s, e);
        t := FailRuns(s, pid, conn, phase, e, p, member.workspaceId, error.value);
      } else {
        var next := phase.(done := phase.done + 1);
        var now := DecideRuns(s, pid, conn, phase, d, p, directory, member, e);
        assert rest[1..] == next.todo[next.done..];
        t := LandRuns(now, pid, conn, next, e, p, directory, member);
        LeadsOn(s, now, t);
      }
    }
  }

  lemma ConcludeRuns(s: State, pid: nat, conn: Row, phase: Phase, d: Desk, p: Provider, workspace: string)
    returns (t: State)
    requires Stage(s, pid, conn, phase, d, p, workspace) && phase.Landing? && phase.done == |phase.todo|
    ensures Leads(s, t) && Stage(t, pid, conn, ConcludedPhase(phase), d, p, workspace)
  {
    LeadsOneStep(s, Conclude(pid));
    t := Step(s, Conclude(pid));
  }

  /** Looking up the senders and landing what they sent is a run. */
  lemma LandWalkRuns(s: State, pid: nat, conn: Row, phase: Phase, d: Desk, p: Provider, users: Directory, member: ProviderUser)
    returns (t: State)
    requires Stage(s, pid, conn, phase, d, p, member.workspaceId)
    requires phase.Landing? && phase.done == 0 && phase.todo == SortById(phase.result.items)
    ensures var (e, landed) := LandWalkOn(d, users, conn, member, phase.result.items);
            Leads(s, t) && Stage(t, pid, conn,
              match landed case Ok(_) => ConcludedPhase(phase) case Err(error) => Noting(error), e, p, member.workspaceId)
  {
    if users.fault.Some? && AsksAnyone(phase.todo) {
      t := FailRuns(s, pid, conn, phase, d, p, member.workspaceId, users.fault.value);
    } else {
      assert phase.todo[0..] == phase.todo;
      var (e, _, failure) := LandAllOn(d, conn, users, member, phase.todo);
      t := LandRuns(s, pid, conn, phase, d, p, users, member);
      if failure.None? {
        var now := t;
        t := ConcludeRuns(now, pid, conn, phase.(done := |phase.todo|), e, p, member.workspaceId);
        LeadsOn(s, now, t);
      }
    }
  }

  /** One region: its walk, then its landing. */
  function RegionOn(d: Desk, p: Provider, users: Directory, conn: Row, member: ProviderUser, phase: Phase)
    : (Desk, Provider, Phase)
    requires phase.Walking?
  {
    var (after, walked) := WalkOf(p, phase);
    match walked
    case Err(error) => (d, after, Noting(error))
    case Ok(walk) =>
      var (e, landed) := LandWalkOn(d, users, conn, member, walk.items);
      (e, after, match landed case Ok(_) => ConcludedPhase(Walked(phase, walk)) case Err(error) => Noting(error))
  }

  lemma RegionRuns(s: State, pid: nat, conn: Row, phase: Phase, d: Desk, p: Provider, users: Directory, member: ProviderUser)
    returns (t: State)
    requires Stage(s, pid, conn, phase, d, p, member.workspaceId) && phase.Walking? && 0 < phase.budget
    ensures var (e, after, next) := RegionOn(d, p, users, conn, member, phase);
            Leads(s, t) && Stage(t, pid, conn, next, e, after, member.workspaceId)
  {
    var (after, walked) := WalkOf(p, phase);
    t := WalkRuns(s, pid, conn, phase, d, p, member.workspaceId);
    if walked.Ok? {
      var now := t;
      t := LandWalkRuns(now, pid, conn, Walked(phase, walked.value), d, after, users, member);
      LeadsOn(s, now, t);
    }
  }

  // ------------------------------------------------------------------
  // The poll
  // ------------------------------------------------------------------

  /** Where deciding leaves the poll: ready to save, or failed. */
  function AfterDeciding(decided: Result<Cursor, Error>): Phase {
    match decided case Ok(at) => Saving(at) case Err(error) => Noting(error)
  }

  /** Deciding is the newest region and then, with what budget is left, the backlog. */
  lemma DecideIsRegions(d: Desk, p: Provider, around: Surroundings, conn: Row, member: ProviderUser)
    ensures var (mid, half, next) := RegionOn(d, p, around.newest, conn, member, BegunPhase(conn));
            var (e, after, decided) := DecideOn(d, p, around, conn, member);
            if next.Walking?
            then 0 < next.budget && RegionOn(mid, half, around.backlog, conn, member, next) == (e, after, AfterDeciding(decided))
            else (mid, half, next) == (e, after, AfterDeciding(decided))
  {
  }

  lemma DecidingRuns(s: State, pid: nat, conn: Row, d: Desk, p: Provider, around: Surroundings, member: ProviderUser)
    returns (t: State)
    requires Stage(s, pid, conn, BegunPhase(conn), d, p, member.workspaceId)
    ensures var (e, after, decided) := DecideOn(d, p, around, conn, member);
            Leads(s, t) && Stage(t, pid, conn, AfterDeciding(decided), e, after, member.workspaceId)
  {
    var (mid, half, next) := RegionOn(d, p, around.newest, conn, member, BegunPhase(conn));
    t := RegionRuns(s, pid, conn, BegunPhase(conn), d, p, around.newest, member);
    DecideIsRegions(d, p, around, conn, member);
    if next.Walking? {
      var now := t;
      t := RegionRuns(now, pid, conn, next, mid, half, around.backlog, member);
      LeadsOn(s, now, t);
    }
  }

  /**
   THE POLL'S METHODS REFINE THE MACHINE. Whatever arrives and fails around it,
   the poll `PollConnection` makes of a row just read is a run of the machine
   from the poll's beginning: to the same table, core and inbox, ended when it
   succeeded, and with its failure still to be noted when it did not.
   */
  lemma PollRefines(s: State, pid: nat, conn: Row, d: Desk, p: Provider, around: Surroundings, workspace: string)
    returns (t: State)
    requires Stage(s, pid, conn, BegunPhase(conn), d, p, workspace)
    requires around.member.Ok? ==> around.member.value.workspaceId == workspace
    ensures var (e, after, polled) := PollOn(d, p, around, conn);
            && Leads(s, t) && DeskIs(t, e) && BoxIs(t.world, AccountOf(conn), after.feed, workspace)
            && match polled
               case Ok(_) => pid !in t.polls
               case Err(error) => pid in t.polls && t.polls[pid].conn == conn && t.polls[pid].phase == Noting(error)
  {
    match around.member
    case Err(error) =>
      t := FailRuns(s, pid, conn, BegunPhase(conn), d, p, workspace, error);
    case Ok(member) =>
      var decided := DecideOn(d, p, around, conn, member).2;
      t := DecidingRuns(s, pid, conn, d, p, around, member);
      if decided.Ok? {
        var now := t;
        if around.saving.Some? {
          var (e, after, _) := DecideOn(d, p, around, conn, member);
          t := FailRuns(now, pid, conn, AfterDeciding(decided), e, after, workspace, around.saving.value);
        } else {
          LeadsOneStep(now, Save(pid, member.name));
          t := Step(now, Save(pid, member.name));
        }
        LeadsOn(s, now, t);
      }
  }

  // ------------------------------------------------------------------
  // What the methods inherit
  // ------------------------------------------------------------------

  /** Deciding touches no row. */
  lemma DecidingKeepsRows(d: Desk, p: Provider, around: Surroundings, conn: Row, member: ProviderUser)
    ensures DecideOn(d, p, around, conn, member).0.table.rows == d.table.rows
  {
    var (mid, half, newest) := ReadNewestOn(d, p, around.newest, conn, member);
    NewestKeepsRows(d, p, around.newest, conn, member);
    if newest.Ok? && newest.value.1 > 0 {
      BacklogKeepsRows(mid, half, around.backlog, conn, member, newest.value.0, newest.value.1);
    }
  }

  lemma NewestKeepsRows(d: Desk, p: Provider, users: Directory, conn: Row, member: ProviderUser)
    ensures ReadNewestOn(d, p, users, conn, member).0.table.rows == d.table.rows
  {
    var walked := Walk(p, conn.cursor.ForwardFrom(), 0, conn.cursor.Budget(), NOTHING_FETCHED).1;
    if walked.Ok? {
      LandWalkDecides(d, users, conn, member, walked.value.items);
    }
  }

  lemma BacklogKeepsRows(d: Desk, p: Provider, users: Directory, conn: Row, member: ProviderUser, at: Cursor, budget: nat)
    ensures FillGapOn(d, p, users, conn, member, at, budget).0.table.rows == d.table.rows
  {
    var walked := Walk(p, at.floor, at.gap, budget, NOTHING_FETCHED).1;
    if walked.Ok? {
      LandWalkDecides(d, users, conn, member, walked.value.items);
    }
  }

  lemma SaveWrites(t: Table, rows: map<string, Row>, conn: Row, account: string, workspace: string, at: Cursor)
    requires t.rows == rows && conn.member in rows && rows[conn.member] == conn
    ensures var after := SaveCursorOn(t, conn, account, workspace, at).rows;
            && conn.member in after && after[conn.member].cursor == at && AccountOf(after[conn.member]) == AccountOf(conn)
            && after[conn.member].accountLabel == account && after[conn.member].providerWorkspace == workspace
  {
  }

  /** A successful poll leaves the cursor it answers, under the account's present name and workspace. */
  lemma PollWritesItsCursor(d: Desk, p: Provider, around: Surroundings, conn: Row)
    requires conn.member in d.table.rows && d.table.rows[conn.member] == conn
    ensures var (e, _, polled) := PollOn(d, p, around, conn);
            polled.Ok? ==>
              var after := e.table.rows;
              && conn.member in after && after[conn.member].cursor == polled.value
              && AccountOf(after[conn.member]) == AccountOf(conn)
              && after[conn.member].accountLabel == around.member.value.name
              && after[conn.member].providerWorkspace == around.member.value.workspaceId
  {
    if around.member.Ok? {
      var member := around.member.value;
      DecidingKeepsRows(d, p, around, conn, member);
      var (end, _, decided) := DecideOn(d, p, around, conn, member);
      if decided.Ok? {
        SaveWrites(end.table, d.table.rows, conn, member.name, member.workspaceId, decided.value);
      }
    }
  }

  /** What the poll of a member's row, run alone from here, leaves behind. */
  ghost predicate PolledSafely(t: State, m: string, feed: Feed, e: Desk, at: Cursor) {
    && m in t.table.rows && t.table.rows[m].cursor == at && m in t.baselines
    && FeedOf(t.world, AccountOf(t.table.rows[m])) == feed
    && forall item :: item in feed && Passed(at, t.baselines[m], item.id) ==>
         var record := RecordOf(t.world, AccountOf(t.table.rows[m]), item);
         || !Directed(item)
         || RecordedDrop(t, AccountOf(t.table.rows[m]), item.id)
         || record.key in e.skipped
         || (record in e.landed && TimesLanded(e.landed, record.key) == 1)
  }

  lemma ReachableRowsAreSafe(t: State, m: string, e: Desk)
    requires Reachable(t) && DeskIs(t, e) && m in t.table.rows
    ensures PolledSafely(t, m, FeedOf(t.world, AccountOf(t.table.rows[m])), e, t.table.rows[m].cursor)
  {
    ReachableIsSound(t);
    assert RowSound(t, m);
    forall item | item in FeedOf(t.world, AccountOf(t.table.rows[m]))
                  && Passed(t.table.rows[m].cursor, t.baselines[m], item.id)
      ensures var record := RecordOf(t.world, AccountOf(t.table.rows[m]), item);
              || !Directed(item)
              || RecordedDrop(t, AccountOf(t.table.rows[m]), item.id)
              || record.key in e.skipped
              || (record in e.landed && TimesLanded(e.landed, record.key) == 1)
    {
      NothingIsLost(t, m, item);
    }
  }

  /**
   Begun in any reachable state, whatever other polls are in flight there, the
   methods' poll of a connected member ends in a reachable one; and when it
   succeeds, nothing its new cursor has passed is lost or in the core twice.
   */
  lemma MethodPollsAreSafe(s: State, pid: nat, m: string, answers: seq<Answer>, writes: seq<Option<Error>>, p: Provider, around: Surroundings,
                           workspace: string)
    returns (t: State)
    requires Reachable(s) && Enabled(s, Begin(pid, m))
    requires ScriptFits(s.world, AccountOf(s.table.rows[m]), p, workspace)
    requires around.member.Ok? ==> around.member.value.workspaceId == workspace
    ensures var (e, after, polled) := PollOn(Desk(s.world.landed, s.world.skipped, s.table, answers, writes), p, around, s.table.rows[m]);
            && Reachable(t) && DeskIs(t, e)
            && (polled.Ok? ==> PolledSafely(t, m, after.feed, e, polled.value))
  {
    var conn := s.table.rows[m];
    var d := Desk(s.world.landed, s.world.skipped, s.table, answers, writes);
    var (e, after, polled) := PollOn(d, p, around, conn);
    var begun := Step(s, Begin(pid, m));
    LeadsOneStep(s, Begin(pid, m));
    assert Stage(begun, pid, conn, BegunPhase(conn), d, p, workspace);
    t := PollRefines(begun, pid, conn, d, p, around, workspace);
    LeadsOn(s, begun, t);
    LeadsReachable(s, t);
    if polled.Ok? {
      ReachableIsSound(s);
      assert conn.member == m;
      PollWritesItsCursor(d, p, around, conn);
      ReachableRowsAreSafe(t, m, e);
    }
  }
}
