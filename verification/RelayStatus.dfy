/**
 What a connection's row says of its member, over whole runs
 (extensions/relay-probe/connection.go, pollfailure.go, ledger.go): when it is
 parked, how it is repaired, and what each entry of the ledger stands for.
 */
module RelayStatus {
  import opened Wrappers
  import opened RelayErrors
  import opened RelayCursor
  import opened RelayTable
  import opened RelayProtocol
  import opened RelaySafety
  import opened RelayFleet
  import opened RelaySend

  // ------------------------------------------------------------------
  // What a failure is called
  // ------------------------------------------------------------------

  /** Which class each error gets: the gravest of what it wraps names it. */
  lemma ClassExactly(cause: Error)
    ensures ClassOf(cause) == TokenRejected <==> ErrUnauthorized in cause
    ensures ClassOf(cause) == ProviderUnavailable <==> ErrTransient in cause && ErrUnauthorized !in cause
    ensures ClassOf(cause) == ProviderAnswerUnusable <==> ErrProvider in cause && cause !! {ErrUnauthorized, ErrTransient}
    ensures ClassOf(cause) == MemberNotPermitted
       <==> ErrForbidden in cause && cause !! {ErrUnauthorized, ErrTransient, ErrProvider}
    ensures ClassOf(cause) == ConnectionUnusable
       <==> ErrInvalid in cause && cause !! {ErrUnauthorized, ErrTransient, ErrProvider, ErrForbidden}
    ensures ClassOf(cause) == PollFailed
       <==> cause !! {ErrUnauthorized, ErrTransient, ErrProvider, ErrForbidden, ErrInvalid}
  {
  }

  /**
   What a request's answer is noted as: a refused credential, a provider that was
   not reached or asked for less, or an answer that is of no use; and only the first
   parks the row.
   */
  lemma AnswersAreNotedAs(reply: Reply)
    requires Do(reply).Err?
    ensures var cause := Do(reply).error;
            && (ClassOf(cause) == TokenRejected <==> Rejected(reply))
            && (FailureStatus(cause) == StatusReauth <==> Rejected(reply))
            && (ClassOf(cause) == ProviderUnavailable
                <==> Unknowable(reply) || (reply.answered && (reply.status == 429 || reply.status >= 500)))
            && ClassOf(cause) in {TokenRejected, ProviderUnavailable, ProviderAnswerUnusable}
  {
    AnswerExactly(reply);
  }

  // ------------------------------------------------------------------
  // The last write over a row
  // ------------------------------------------------------------------

  /** The poll writes over the row of this member, at this step. */
  predicate WritesOver(s: State, pid: nat, m: string) {
    pid in s.polls && s.polls[pid].conn.member == m && Matches(s.table, s.polls[pid].conn)
  }

  /** What the last write over a member's row was a failure of, if it was one. */
  ghost function LastFailure(s: State, events: seq<Event>, m: string, last: Option<Error>): Option<Error>
    decreases |events|
  {
    if events == [] || !Enabled(s, events[0]) then last
    else LastFailure(Step(s, events[0]), events[1..], m, FailureAfter(s, events[0], m, last))
  }

  ghost function FailureAfter(s: State, e: Event, m: string, last: Option<Error>): Option<Error> {
    match e
    case Connect(n, _) => if n == m then None else last
    case Save(pid, _) => if WritesOver(s, pid, m) then None else last
    case Note(pid) => if WritesOver(s, pid, m) && s.polls[pid].phase.Noting? then Some(s.polls[pid].phase.cause) else last
    case _ => last
  }

  /** The row tells of this failure, and of none when there is none. */
  ghost predicate Tells(s: State, m: string, last: Option<Error>) {
    m in s.table.rows ==>
      && s.table.rows[m].lastErrorClass == (if last.Some? then Some(ClassOf(last.value)) else None)
      && (s.table.rows[m].status == StatusReauth <==> last.Some? && ErrUnauthorized in last.value)
  }

  /** Only a connected row is ever polled. */
  ghost predicate PollsOfConnected(s: State) {
    forall pid :: pid in s.polls ==> s.polls[pid].conn.status == StatusConnected
  }

  lemma StepPollsConnected(s: State, e: Event)
    requires Enabled(s, e) && PollsOfConnected(s)
    ensures PollsOfConnected(Step(s, e))
  {
  }

  lemma SaveTells(s: State, e: Event, m: string, last: Option<Error>)
    requires PollsCurrent(s) && Enabled(s, e) && e.Save? && PollsOfConnected(s) && Tells(s, m, last)
    ensures Tells(Step(s, e), m, FailureAfter(s, e, m, last))
  {
    assert PollCurrent(s, s.polls[e.pid]);
  }

  lemma NoteTells(s: State, e: Event, m: string, last: Option<Error>)
    requires Enabled(s, e) && e.Note? && Tells(s, m, last)
    ensures Tells(Step(s, e), m, FailureAfter(s, e, m, last))
  {
  }

  lemma OthersTell(s: State, e: Event, m: string, last: Option<Error>)
    requires Enabled(s, e) && !e.Note? && !e.Save? && Tells(s, m, last)
    ensures Tells(Step(s, e), m, FailureAfter(s, e, m, last))
  {
  }

  lemma StepTells(s: State, e: Event, m: string, last: Option<Error>)
    requires PollsCurrent(s) && Enabled(s, e) && PollsOfConnected(s) && Tells(s, m, last)
    ensures Tells(Step(s, e), m, FailureAfter(s, e, m, last))
  {
    if e.Save? {
      SaveTells(s, e, m, last);
    } else if e.Note? {
      NoteTells(s, e, m, last);
    } else {
      OthersTell(s, e, m, last);
    }
  }

  lemma {:induction false} RunTells(s: State, events: seq<Event>, end: State, m: string, last: Option<Error>)
    requires Run(s, events, end) && Inv(s) && PollsOfConnected(s) && Tells(s, m, last)
    ensures Tells(end, m, LastFailure(s, events, m, last)) && PollsOfConnected(end)
    decreases |events|
  {
    if events != [] {
      StepKeepsInv(s, events[0]);
      StepPollsConnected(s, events[0]);
      StepTells(s, events[0], m, last);
      RunTells(Step(s, events[0]), events[1..], end, m, FailureAfter(s, events[0], m, last));
    }
  }

  /**
   PARKED EXACTLY FOR A REJECTED TOKEN. After any run from the start, a row needs a
   new token exactly when the last write over it was of a failure that held one,
   and no connect or successful poll since; and its class is that of this failure.
   */
  lemma ParkedExactly(s: State, events: seq<Event>, end: State, m: string)
    requires Init(s) && Run(s, events, end) && m in end.table.rows
    ensures var last := LastFailure(s, events, m, None);
            && (end.table.rows[m].status == StatusReauth <==> last.Some? && ErrUnauthorized in last.value)
            && end.table.rows[m].lastErrorClass == (if last.Some? then Some(ClassOf(last.value)) else None)
  {
    InitIsSound(s);
    RunTells(s, events, end, m, None);
  }

  // ------------------------------------------------------------------
  // Connecting repairs
  // ------------------------------------------------------------------

  /** No poll in flight is of this member's row as it is. */
  ghost predicate NobodyWrites(s: State, m: string) {
    forall pid :: pid in s.polls && s.polls[pid].conn.member == m ==> !Matches(s.table, s.polls[pid].conn)
  }

  /** The row is there to be polled, with nothing held against it. */
  ghost predicate InOrder(s: State, m: string) {
    m in s.table.rows ==> s.table.rows[m].status == StatusConnected && s.table.rows[m].lastErrorClass == None
  }

  lemma ConnectFreesTheRow(s: State, m: string, baseUrl: string)
    requires Inv(s)
    ensures NobodyWrites(Step(s, Connect(m, baseUrl)), m)
  {
    var t := Step(s, Connect(m, baseUrl));
    forall pid | pid in t.polls && t.polls[pid].conn.member == m ensures !Matches(t.table, t.polls[pid].conn) {
      assert PollCurrent(s, s.polls[pid]);
    }
  }

  /**
   CONNECTING REPAIRS. Whatever state its row was in, a member who connects has one
   that is connected to this address with nothing held against it: it can be polled
   at once, every tick's order has it, and no poll still in flight can write over it.
   */
  lemma ConnectRepairs(s: State, m: string, baseUrl: string, order: seq<Row>)
    requires Reachable(s)
    ensures var t := Step(s, Connect(m, baseUrl));
            && Reachable(t)
            && m in t.table.rows && t.table.rows[m].member == m && t.table.rows[m].baseUrl == baseUrl
            && InOrder(t, m) && NobodyWrites(t, m)
            && (forall pid :: pid !in t.polls ==> Enabled(t, Begin(pid, m)))
            && m in FleetOf(t.table)
            && (TurnOrder(t.table, order) ==> t.table.rows[m] in order)
            && (m in s.table.rows ==>
                  t.table.rows[m].id == s.table.rows[m].id && t.table.rows[m].accountLabel == s.table.rows[m].accountLabel)
  {
    ReachableIsSound(s);
    ConnectFreesTheRow(s, m, baseUrl);
    LeadsOneStep(s, Connect(m, baseUrl));
    LeadsReachable(s, Step(s, Connect(m, baseUrl)));
  }

  /** Writes of polls that are of other rows, or of this one as it no longer is, leave it. */
  lemma WritesPassBy(s: State, e: Event, m: string)
    requires RowsDistinct(s.table) && Enabled(s, e) && (e.Save? || e.Note?) && NobodyWrites(s, m) && m in s.table.rows
    ensures m in Step(s, e).table.rows && Step(s, e).table.rows[m] == s.table.rows[m]
  {
  }

  lemma RowStaysInOrder(s: State, e: Event, m: string)
    requires RowsDistinct(s.table) && Enabled(s, e) && InOrder(s, m) && NobodyWrites(s, m)
    ensures InOrder(Step(s, e), m)
  {
    if (e.Save? || e.Note?) && m in s.table.rows {
      WritesPassBy(s, e, m);
    }
  }

  lemma NobodyStarts(s: State, e: Event, m: string)
    requires RowsDistinct(s.table) && PollsCurrent(s) && Enabled(s, e) && NobodyWrites(s, m)
    requires e.Begin? ==> e.member != m
    ensures NobodyWrites(Step(s, e), m)
  {
    var t := Step(s, e);
    StepMovesRows(s, e);
    forall pid | pid in t.polls && t.polls[pid].conn.member == m ensures !Matches(t.table, t.polls[pid].conn) {
      NewPollsBegin(s, e, pid);
      assert PollCurrent(s, s.polls[pid]);
      StaleStaysStale(s, t, s.polls[pid]);
    }
  }

  lemma NewPollsBegin(s: State, e: Event, pid: nat)
    requires RowsDistinct(s.table) && Enabled(s, e) && pid in Step(s, e).polls
    ensures if pid in s.polls then Step(s, e).polls[pid].conn == s.polls[pid].conn
            else e.Begin? && Step(s, e).polls[pid].conn.member == e.member
  {
  }

  /**
   And it stays repaired: a poll that was already running when the member connected
   can no longer park the row or put a class on it, whatever it fails of and
   however late; only one begun since can.
   */
  lemma {:induction false} RepairHolds(s: State, events: seq<Event>, end: State, m: string)
    requires Inv(s) && Run(s, events, end) && InOrder(s, m) && NobodyWrites(s, m)
    requires forall i :: 0 <= i < |events| && events[i].Begin? ==> events[i].member != m
    ensures InOrder(end, m)
    decreases |events|
  {
    if events != [] {
      StepKeepsInv(s, events[0]);
      RowStaysInOrder(s, events[0], m);
      NobodyStarts(s, events[0], m);
      RepairHolds(Step(s, events[0]), events[1..], end, m);
    }
  }

  // ------------------------------------------------------------------
  // Whose workspace the row names
  // ------------------------------------------------------------------

  /** The workspace of the account the row is connected to, or none while nothing of it was read. */
  ghost predicate NamesItsWorkspace(s: State, m: string) {
    m in s.table.rows ==>
      var row := s.table.rows[m];
      || row.providerWorkspace == WorkspaceOf(s.world, AccountOf(row))
      || (row.providerWorkspace == "" && row.cursor.FirstPoll())
  }

  lemma SaveNamesWorkspace(s: State, e: Event, m: string)
    requires PollsCurrent(s) && Enabled(s, e) && e.Save? && NamesItsWorkspace(s, m)
    ensures NamesItsWorkspace(Step(s, e), m)
  {
    assert PollCurrent(s, s.polls[e.pid]);
  }

  lemma OthersNameWorkspace(s: State, e: Event, m: string)
    requires RowsDistinct(s.table) && Enabled(s, e) && !e.Save? && NamesItsWorkspace(s, m)
    ensures NamesItsWorkspace(Step(s, e), m)
  {
  }

  lemma {:induction false} RunNamesWorkspace(s: State, events: seq<Event>, end: State, m: string)
    requires Run(s, events, end) && Inv(s) && NamesItsWorkspace(s, m)
    ensures NamesItsWorkspace(end, m)
    decreases |events|
  {
    if events != [] {
      StepKeepsInv(s, events[0]);
      if events[0].Save? {
        SaveNamesWorkspace(s, events[0], m);
      } else {
        OthersNameWorkspace(s, events[0], m);
      }
      RunNamesWorkspace(Step(s, events[0]), events[1..], end, m);
    }
  }

  /** In every reachable state a row that has read anything names the workspace it read it from, and never a former one. */
  lemma RowsNameTheirWorkspace(s: State, m: string)
    requires Reachable(s) && m in s.table.rows
    ensures NamesItsWorkspace(s, m)
  {
    var s0, events :| Init(s0) && Run(s0, events, s);
    InitIsSound(s0);
    RunNamesWorkspace(s0, events, s, m);
  }

  // ------------------------------------------------------------------
  // What each entry stands for
  // ------------------------------------------------------------------

  /** The second image was polled after the first. */
  predicate PolledSince(before: Row, after: Row) {
    after.lastPolledAt.Some? && (before.lastPolledAt.Some? ==> before.lastPolledAt.value < after.lastPolledAt.value)
  }

  /** Both images are of one row, the second at the next version. */
  predicate OneRow(e: Entry) {
    && e.before.Some? && e.after.Some? && e.id == e.before.value.id == e.after.value.id
    && e.before.value.member == e.after.value.member && e.after.value.version == e.before.value.version + 1
  }

  /** What happened, told from the entry's images alone. */
  predicate SaysWhatHappened(e: Entry) {
    match e.verb
    case EventConnected =>
      && e.detail.None? && e.after.Some? && e.after.value.status == StatusConnected && e.after.value.lastErrorClass.None?
      && (if e.before.None? then e.action == Create && e.id == e.after.value.id && e.after.value.lastPolledAt.None?
          else e.action == Update && OneRow(e) && e.after.value.lastPolledAt == e.before.value.lastPolledAt)
    case EventDisconnected =>
      e.detail.None? && e.action == Erase && e.before.Some? && e.after.None? && e.id == e.before.value.id
    case EventPolled =>
      && e.detail.None? && e.action == Update && OneRow(e) && PolledSince(e.before.value, e.after.value)
      && e.after.value.status == StatusConnected
      && (e.after.value.cursor == e.before.value.cursor <==> e.after.value.lastErrorClass.Some?)
    case EventReauth =>
      && e.detail.None? && e.action == Update && OneRow(e) && PolledSince(e.before.value, e.after.value)
      && e.after.value.status == StatusReauth && e.after.value.lastErrorClass == Some(TokenRejected)
      && e.after.value.cursor == e.before.value.cursor
    case EventRecordDropped =>
      e.detail.Some? && e.action == Update && e.before.None? && e.after.None?
  }

  ghost predicate LedgerSpeaks(t: Table) {
    forall e :: e in t.ledger ==> SaysWhatHappened(e)
  }

  ghost predicate Speaks(s: State) { LedgerSpeaks(s.table) && Stamped(s.table) }

  lemma ConnectSpeaks(t: Table, m: string, baseUrl: string)
    requires LedgerSpeaks(t) && Stamped(t) && RowsDistinct(t)
    ensures LedgerSpeaks(ConnectOn(t, m, baseUrl)) && Stamped(ConnectOn(t, m, baseUrl))
  {
  }

  lemma DisconnectSpeaks(t: Table, m: string)
    requires LedgerSpeaks(t) && Stamped(t)
    ensures LedgerSpeaks(DisconnectOn(t, m)) && Stamped(DisconnectOn(t, m))
  {
  }

  lemma SaveSpeaks(t: Table, conn: Row, account: string, workspace: string, at: Cursor)
    requires LedgerSpeaks(t) && Stamped(t) && conn.status == StatusConnected && (Matches(t, conn) ==> t.rows[conn.member] == conn)
    ensures var u := SaveCursorOn(t, conn, account, workspace, at); LedgerSpeaks(u) && Stamped(u)
  {
  }

  lemma NoteSpeaks(t: Table, conn: Row, cause: Error)
    requires LedgerSpeaks(t) && Stamped(t) && (Matches(t, conn) ==> t.rows[conn.member] == conn)
    ensures var u := NoteFailureOn(t, conn, cause); LedgerSpeaks(u) && Stamped(u)
  {
  }

  lemma DropSpeaks(t: Table, conn: Row, notification: int, reason: string)
    requires LedgerSpeaks(t) && Stamped(t)
    ensures var u := NoteDropOn(t, conn, notification, reason); LedgerSpeaks(u) && Stamped(u)
  {
  }

  lemma StepSpeaks(s: State, e: Event)
    requires RowsDistinct(s.table) && PollsCurrent(s) && PollsOfConnected(s) && Enabled(s, e) && Speaks(s)
    ensures Speaks(Step(s, e))
  {
    match e
    case Connect(m, baseUrl) => ConnectSpeaks(s.table, m, baseUrl);
    case Disconnect(m) => DisconnectSpeaks(s.table, m);
    case Save(pid, account) =>
      var p := s.polls[pid];
      assert PollCurrent(s, p);
      SaveSpeaks(s.table, p.conn, account, WorkspaceOf(s.world, AccountOf(p.conn)), p.phase.at);
    case Note(pid) =>
      assert PollCurrent(s, s.polls[pid]);
      NoteSpeaks(s.table, s.polls[pid].conn, s.polls[pid].phase.cause);
    case Decide(pid, _) =>
      var p := s.polls[pid];
      DropSpeaks(s.table, p.conn, p.phase.todo[p.phase.done].id, "unrepresentable");
      DropSpeaks(s.table, p.conn, p.phase.todo[p.phase.done].id, "refused_by_the_core");
    case _ =>
  }

  lemma {:induction false} RunSpeaks(s: State, events: seq<Event>, end: State)
    requires Run(s, events, end) && Inv(s) && PollsOfConnected(s) && Speaks(s)
    ensures Speaks(end)
    decreases |events|
  {
    if events != [] {
      StepKeepsInv(s, events[0]);
      StepPollsConnected(s, events[0]);
      StepSpeaks(s, events[0]);
      RunSpeaks(Step(s, events[0]), events[1..], end);
    }
  }

  /**
   EVERY ENTRY SAYS WHAT HAPPENED. In every reachable state each entry's verb can be
   told from its images: a connect leaves the time of the last poll and clears the
   class, a poll moves that time and either the cursor or the class, and only a
   rejected token asks for a new one.
   */
  lemma EntriesSayWhatHappened(s: State, e: Entry)
    requires Reachable(s) && e in s.table.ledger
    ensures SaysWhatHappened(e)
  {
    var s0, events :| Init(s0) && Run(s0, events, s);
    InitIsSound(s0);
    RunSpeaks(s0, events, s);
  }
}
