/** What holds in every state the poll protocol can reach, and along every run of it. */
module RelaySafety {
  import opened RelayErrors
  import opened RelayFeed
  import opened RelayCursor
  import opened RelayRecord
  import opened RelayTable
  import opened RelayPollSteps
  import opened RelayProtocol

  lemma InitIsSound(s: State)
    requires Init(s)
    ensures Inv(s) && DropsRecorded(s)
  {
  }

  /** Every dropped notification has its entry in the ledger, under the connection that dropped it. */
  ghost predicate DropsRecorded(s: State) {
    forall d :: d in s.world.dropped ==> DroppedIn(s.table.ledger, s.world.dropped[d], d.1)
  }

  lemma DropEntryStays(ledger: seq<Entry>, longer: seq<Entry>, connection: nat, notification: int)
    requires DroppedIn(ledger, connection, notification) && ledger <= longer
    ensures DroppedIn(longer, connection, notification)
  {
  }

  /** The ledger is append-only. */
  lemma LedgerGrows(s: State, e: Event)
    requires Enabled(s, e)
    ensures s.table.ledger <= Step(s, e).table.ledger
  {
  }

  lemma StepRecordsDrops(s: State, e: Event)
    requires Enabled(s, e) && DropsRecorded(s)
    ensures DropsRecorded(Step(s, e))
  {
    var t := Step(s, e);
    LedgerGrows(s, e);
    forall d | d in t.world.dropped ensures DroppedIn(t.table.ledger, t.world.dropped[d], d.1) {
      if d in s.world.dropped && t.world.dropped[d] == s.world.dropped[d] {
        DropEntryStays(s.table.ledger, t.table.ledger, s.world.dropped[d], d.1);
      } else {
        NewDropIsRecorded(s, e, d);
      }
    }
  }

  lemma NewDropIsRecorded(s: State, e: Event, d: (Account, int))
    requires Enabled(s, e) && d in Step(s, e).world.dropped
    requires !(d in s.world.dropped && Step(s, e).world.dropped[d] == s.world.dropped[d])
    ensures DroppedIn(Step(s, e).table.ledger, Step(s, e).world.dropped[d], d.1)
  {
    assert e.Decide?;
    var p := s.polls[e.pid];
    var item := p.phase.todo[p.phase.done];
    var u := DecideItem(s, p.conn, item, e.verdict);
    assert Step(s, e).table == u.table && Step(s, e).world == u.world;
    assert d == (AccountOf(p.conn), item.id) && u.world.dropped[d] == p.conn.id;
    assert u.table.ledger[|s.table.ledger|].detail.Some?;
  }

  lemma {:induction false} RunKeepsInv(s: State, events: seq<Event>, end: State)
    requires Run(s, events, end) && Inv(s) && DropsRecorded(s)
    ensures Inv(end) && DropsRecorded(end)
    decreases |events|
  {
    if events != [] {
      StepKeepsInv(s, events[0]);
      StepRecordsDrops(s, events[0]);
      RunKeepsInv(Step(s, events[0]), events[1..], end);
    }
  }

  ghost predicate Reachable(s: State) {
    exists s0, events :: Init(s0) && Run(s0, events, s)
  }

  lemma ReachableIsSound(s: State)
    requires Reachable(s)
    ensures Inv(s) && DropsRecorded(s)
  {
    var s0, events :| Init(s0) && Run(s0, events, s);
    InitIsSound(s0);
    RunKeepsInv(s0, events, s);
  }

  // ------------------------------------------------------------------
  // Runs, end to end
  // ------------------------------------------------------------------

  /** Some run of the machine leads from one state to the other. */
  ghost predicate Leads(s: State, t: State) {
    exists events :: Run(s, events, t)
  }

  lemma LeadsNowhere(s: State)
    ensures Leads(s, s)
  {
    assert Run(s, [], s);
  }

  lemma LeadsOneStep(s: State, e: Event)
    requires Enabled(s, e)
    ensures Leads(s, Step(s, e))
  {
    assert [e][1..] == [];
    assert Run(s, [e], Step(s, e));
  }

  lemma {:induction false} RunsJoin(s: State, first: seq<Event>, mid: State, second: seq<Event>, t: State)
    requires Run(s, first, mid) && Run(mid, second, t)
    ensures Run(s, first + second, t)
    decreases |first|
  {
    if first == [] {
      assert first + second == second;
    } else {
      RunsJoin(Step(s, first[0]), first[1..], mid, second, t);
      assert (first + second)[1..] == first[1..] + second;
    }
  }

  lemma LeadsOn(s: State, mid: State, t: State)
    requires Leads(s, mid) && Leads(mid, t)
    ensures Leads(s, t)
  {
    var first :| Run(s, first, mid);
    var second :| Run(mid, second, t);
    RunsJoin(s, first, mid, second, t);
  }

  lemma LeadsReachable(s: State, t: State)
    requires Reachable(s) && Leads(s, t)
    ensures Reachable(t)
  {
    var s0, first :| Init(s0) && Run(s0, first, s);
    var second :| Run(s, second, t);
    RunsJoin(s0, first, s, second, t);
  }

  // ------------------------------------------------------------------
  // Safety
  // ------------------------------------------------------------------

  /** How often the core holds a record under this key. */
  function TimesLanded(landed: seq<Landed>, key: string): nat {
    if landed == [] then 0
    else TimesLanded(landed[..|landed| - 1], key) + if landed[|landed| - 1].key == key then 1 else 0
  }

  lemma {:induction false} OnceMeansOnce(landed: seq<Landed>, key: string)
    requires KeysOnce(landed)
    ensures TimesLanded(landed, key) == if key in KeysOf(landed) then 1 else 0
  {
    if landed != [] {
      var rest, last := landed[..|landed| - 1], landed[|landed| - 1];
      OnceMeansOnce(rest, key);
      assert landed == rest + [last];
      assert KeysOf(landed) == KeysOf(rest) + {last.key};
    }
  }

  /** The notification was dropped, and the ledger says so under the connection that dropped it. */
  predicate RecordedDrop(s: State, a: Account, notification: int) {
    (a, notification) in s.world.dropped && DroppedIn(s.table.ledger, s.world.dropped[(a, notification)], notification)
  }

  /**
   NOTHING IS LOST. In every reachable state, each notification of a connected
   member's inbox that the stored cursor has passed was filtered as not
   directed, or is a drop the ledger records, or was skipped by the core, which
   holds a breadcrumb under its key, or is in the core exactly once, as itself.
   */
  lemma NothingIsLost(s: State, m: string, item: Item)
    requires Reachable(s) && m in s.table.rows
    requires item in FeedOf(s.world, AccountOf(s.table.rows[m]))
    requires m in s.baselines && Passed(s.table.rows[m].cursor, s.baselines[m], item.id)
    ensures var record := RecordOf(s.world, AccountOf(s.table.rows[m]), item);
            || !Directed(item)
            || RecordedDrop(s, AccountOf(s.table.rows[m]), item.id)
            || record.key in s.world.skipped
            || (record in s.world.landed && TimesLanded(s.world.landed, record.key) == 1)
  {
    ReachableIsSound(s);
    assert RowSound(s, m);
    var a := AccountOf(s.table.rows[m]);
    var record := RecordOf(s.world, a, item);
    assert Decided(s.world, a, item);
    if record in s.world.landed {
      OnceMeansOnce(s.world.landed, record.key);
    }
  }

  /** NOTHING LANDS TWICE, and nothing lands in another notification's place. */
  lemma NothingLandsTwice(s: State, a: Account, item: Item)
    requires Reachable(s) && a in s.world.boxes && item in s.world.boxes[a].feed
    ensures TimesLanded(s.world.landed, RecordOf(s.world, a, item).key) <= 1
    ensures forall r :: r in s.world.landed && r.key == RecordOf(s.world, a, item).key ==> r == RecordOf(s.world, a, item)
  {
    ReachableIsSound(s);
    OnceMeansOnce(s.world.landed, RecordOf(s.world, a, item).key);
    forall r | r in s.world.landed && r.key == RecordOf(s.world, a, item).key
      ensures r == RecordOf(s.world, a, item)
    {
      assert OwnRecord(s.world, r);
      var b :| b in s.world.boxes && r.item in s.world.boxes[b].feed && r == RecordOf(s.world, b, r.item);
      KeysTellApart(s.world, a, item, b, r.item);
    }
  }

  /** Every stored cursor has one of its two shapes, and its numbers are ids of the deployment the row names. */
  lemma StoredCursorsAreSound(s: State, m: string)
    requires Reachable(s) && m in s.table.rows
    ensures var row := s.table.rows[m]; row.cursor.Shape() && Issued(FeedOf(s.world, AccountOf(row)), row.cursor)
  {
    ReachableIsSound(s);
    assert RowSound(s, m);
  }

  /**
   While every page that reports more is full, no poll asks for more pages than its
   budget. Whatever pages it is answered, it asks for fewer than two budgets; and a
   first poll that landed anything asked for exactly one.
   */
  lemma PollsStayInBudget(s: State, pid: nat)
    requires Reachable(s) && pid in s.polls
    ensures var p := s.polls[pid];
            && (p.full ==> p.requests <= MAX_PAGES_PER_POLL)
            && p.requests <= Twice(MAX_PAGES_PER_POLL)
            && (p.conn.cursor.FirstPoll() ==> p.requests <= 1)
            && (p.conn.cursor.FirstPoll() && (p.phase.Landing? || p.phase.Saving?) ==> p.requests == 1)
  {
    ReachableIsSound(s);
    assert PollKnows(s.world, s.polls[pid]);
  }

  /** THE LEDGER REBUILDS THE TABLE, and every before-image in it was true when it was written. */
  lemma LedgerRebuildsTable(s: State)
    requires Reachable(s)
    ensures Replay(s.table.ledger) == SeenRows(s.table.rows) && TruthfulLedger(s.table.ledger)
  {
    ReachableIsSound(s);
  }

  // ------------------------------------------------------------------
  // Along a run
  // ------------------------------------------------------------------

  lemma {:induction false} RunKeepsStale(s: State, events: seq<Event>, end: State, p: Poll)
    requires Run(s, events, end) && PollCurrent(s, p) && !Matches(s.table, p.conn)
    ensures !Matches(end.table, p.conn)
    decreases |events|
  {
    if events != [] {
      var t := Step(s, events[0]);
      StepMovesRows(s, events[0]);
      PollStaysCurrent(s, t, p);
      StaleStaysStale(s, t, p);
      RunKeepsStale(t, events[1..], end, p);
    }
  }

  /**
   NO STALE WRITE. Once the row a poll read has moved on (a reconnect, a
   disconnect, another poll's write), nothing that poll does at any later time
   changes the table: not the cursor it would save, and not the failure it would
   note.
   */
  lemma StalePollsNeverWrite(s: State, events: seq<Event>, end: State, pid: nat,
                             account: string, workspace: string, at: Cursor, cause: Error)
    requires Reachable(s) && pid in s.polls && !Matches(s.table, s.polls[pid].conn) && Run(s, events, end)
    ensures SaveCursorOn(end.table, s.polls[pid].conn, account, workspace, at) == end.table
    ensures NoteFailureOn(end.table, s.polls[pid].conn, cause) == end.table
  {
    ReachableIsSound(s);
    assert PollCurrent(s, s.polls[pid]);
    RunKeepsStale(s, events, end, s.polls[pid]);
  }

  /** A member's row is this one, on this deployment. */
  predicate At(s: State, m: string, id: nat, baseUrl: string) {
    m in s.table.rows && s.table.rows[m].id == id && s.table.rows[m].baseUrl == baseUrl
  }

  lemma SaveAdvances(s: State, e: Event, m: string)
    requires PollsCurrent(s) && PollsKnow(s) && Enabled(s, e) && e.Save? && m in s.table.rows
    ensures Advances(s.table.rows[m].cursor, Step(s, e).table.rows[m].cursor)
    ensures !s.table.rows[m].cursor.FirstPoll() ==> BaselineKept(s, Step(s, e), m)
  {
  }

  lemma ConnectAdvances(s: State, e: Event, m: string, id: nat, baseUrl: string)
    requires e.Connect? && At(s, m, id, baseUrl) && At(Step(s, e), m, id, baseUrl)
    ensures Step(s, e).table.rows[m].cursor == s.table.rows[m].cursor && BaselineKept(s, Step(s, e), m)
  {
  }

  lemma StepAdvances(s: State, e: Event, m: string, id: nat, baseUrl: string)
    requires PollsCurrent(s) && PollsKnow(s) && Enabled(s, e)
    requires At(s, m, id, baseUrl) && At(Step(s, e), m, id, baseUrl)
    ensures Advances(s.table.rows[m].cursor, Step(s, e).table.rows[m].cursor)
    ensures !s.table.rows[m].cursor.FirstPoll() ==> BaselineKept(s, Step(s, e), m)
  {
    match e
    case Save(_, _) => SaveAdvances(s, e, m);
    case Connect(_, _) => ConnectAdvances(s, e, m, id, baseUrl);
    case _ => OtherStepsKeepCursors(s, e, m);
  }

  lemma OtherStepsKeepCursors(s: State, e: Event, m: string)
    requires Enabled(s, e) && !e.Save? && !e.Connect? && m in s.table.rows && m in Step(s, e).table.rows
    ensures Step(s, e).table.rows[m].cursor == s.table.rows[m].cursor && BaselineKept(s, Step(s, e), m)
  {
  }

  /** Along the whole run the member's row stays this one, on this deployment. */
  ghost predicate StaysAt(s: State, events: seq<Event>, m: string, id: nat, baseUrl: string)
    decreases |events|
  {
    && At(s, m, id, baseUrl)
    && (events != [] && Enabled(s, events[0]) ==> StaysAt(Step(s, events[0]), events[1..], m, id, baseUrl))
  }

  /** Within one deployment neither the floor nor the newest decided id ever goes down, and a fixed baseline stays. */
  lemma {:induction false} CursorsOnlyAdvance(s: State, events: seq<Event>, end: State, m: string, id: nat, baseUrl: string)
    requires Inv(s) && Run(s, events, end) && StaysAt(s, events, m, id, baseUrl)
    ensures At(end, m, id, baseUrl) && Advances(s.table.rows[m].cursor, end.table.rows[m].cursor)
    ensures m in s.baselines && m in end.baselines
    ensures 0 < s.table.rows[m].cursor.ForwardFrom() ==> end.baselines[m] == s.baselines[m]
    decreases |events|
  {
    assert RowSound(s, m);
    if events != [] {
      var t := Step(s, events[0]);
      StepKeepsInv(s, events[0]);
      StepAdvances(s, events[0], m, id, baseUrl);
      assert RowSound(t, m);
      CursorsOnlyAdvance(t, events[1..], end, m, id, baseUrl);
    }
  }
}
