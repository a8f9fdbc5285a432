/**
 The connection table and its ledger (extensions/relay-probe/connection.go,
 poll.go, pollfailure.go and ledger.go): every statement the unit runs against
 its one table, each in a transaction of its own with the ledger row it records.
 */
module RelayTable {
  import opened Wrappers
  import opened RelayErrors
  import opened RelayCursor

  datatype Status = StatusConnected | StatusReauth

  datatype FailureClass =
    | TokenRejected
    | MemberNotPermitted
    | ConnectionUnusable
    | ProviderUnavailable
    | ProviderAnswerUnusable
    | PollFailed
    | EveryMemberFailed

  /** One member's connection, as the unit reads it back. */
  datatype Row = Row(
    id: nat, member: string, baseUrl: string, status: Status, accountLabel: string, providerWorkspace: string,
    cursor: Cursor, lastPolledAt: Option<nat>, lastErrorClass: Option<FailureClass>, version: nat)

  datatype Action = Create | Update | Erase

  datatype Verb = EventConnected | EventDisconnected | EventPolled | EventReauth | EventRecordDropped

  /** A notification that will never land, and why. */
  datatype Drop = Drop(notification: int, reason: string)

  datatype Entry = Entry(action: Action, verb: Verb, id: nat, before: Option<Row>, after: Option<Row>, detail: Option<Drop>)

  datatype Table = Table(rows: map<string, Row>, ledger: seq<Entry>, nextId: nat, clock: nat)

  /** What went wrong, in the unit's own vocabulary; the first sentinel that applies names it. */
  function ClassOf(cause: Error): FailureClass {
    if ErrUnauthorized in cause then TokenRejected
    else if ErrTransient in cause then ProviderUnavailable
    else if ErrProvider in cause then ProviderAnswerUnusable
    else if ErrForbidden in cause then MemberNotPermitted
    else if ErrInvalid in cause then ConnectionUnusable
    else PollFailed
  }

  function AuditActionFor(before: Option<Row>): Action {
    if before.None? then Create else Update
  }

  function ConnectionOf(t: Table, member: string): Option<Row> {
    if member in t.rows then Some(t.rows[member]) else None
  }

  /** One recorded write: both images, and the id from whichever side there is. */
  function Recorded(action: Action, verb: Verb, before: Option<Row>, after: Option<Row>): Entry
    requires before.Some? || after.Some?
  {
    Entry(action, verb, if after.Some? then after.value.id else before.value.id, before, after, None)
  }

  /** The row connecting leaves: the cursor survives unless the deployment changed. */
  function ConnectedRow(t: Table, member: string, baseUrl: string): Row {
    match ConnectionOf(t, member)
    case None =>
      Row(t.nextId, member, baseUrl, StatusConnected, "", "", UNREAD_ACCOUNT, None, None, 1)
    case Some(row) =>
      var same := row.baseUrl == baseUrl;
      row.(baseUrl := baseUrl, status := StatusConnected, lastErrorClass := None,
           cursor := if same then row.cursor else UNREAD_ACCOUNT,
           providerWorkspace := if same then row.providerWorkspace else "",
           version := row.version + 1)
  }

  function ConnectOn(t: Table, member: string, baseUrl: string): Table {
    var before := ConnectionOf(t, member);
    var stored := ConnectedRow(t, member, baseUrl);
    Table(t.rows[member := stored],
          t.ledger + [Recorded(AuditActionFor(before), EventConnected, before, Some(stored))],
          if before.None? then t.nextId + 1 else t.nextId,
          t.clock + 1)
  }

  function DisconnectOn(t: Table, member: string): Table {
    match ConnectionOf(t, member)
    case None => t
    case Some(gone) =>
      t.(rows := t.rows - {member},
         ledger := t.ledger + [Recorded(Erase, EventDisconnected, Some(gone), None)],
         clock := t.clock + 1)
  }

  /** Whether the row a poll read is still the row on file: the guard of both of a poll's writes. */
  predicate Matches(t: Table, conn: Row) {
    conn.member in t.rows && t.rows[conn.member].id == conn.id && t.rows[conn.member].version == conn.version
  }

  function SavedRow(t: Table, row: Row, account: string, workspace: string, at: Cursor): Row {
    row.(cursor := at, accountLabel := account, providerWorkspace := workspace,
         lastPolledAt := Some(t.clock), lastErrorClass := None, version := row.version + 1)
  }

  function SaveCursorOn(t: Table, conn: Row, account: string, workspace: string, at: Cursor): Table {
    if !Matches(t, conn) then t
    else
      var updated := SavedRow(t, t.rows[conn.member], account, workspace, at);
      Table(t.rows[conn.member := updated],
            if updated.cursor == conn.cursor then t.ledger
            else t.ledger + [Recorded(Update, EventPolled, Some(conn), Some(updated))],
            t.nextId, t.clock + 1)
  }

  function FailureStatus(cause: Error): Status {
    if ErrUnauthorized in cause then StatusReauth else StatusConnected
  }

  function FailedRow(t: Table, row: Row, cause: Error): Row {
    row.(status := FailureStatus(cause), lastErrorClass := Some(ClassOf(cause)),
         lastPolledAt := Some(t.clock), version := row.version + 1)
  }

  function NoteFailureOn(t: Table, conn: Row, cause: Error): Table {
    if !Matches(t, conn) then t
    else
      var updated := FailedRow(t, t.rows[conn.member], cause);
      var verb := if FailureStatus(cause) == StatusReauth then EventReauth else EventPolled;
      Table(t.rows[conn.member := updated],
            t.ledger + [Recorded(Update, verb, Some(conn), Some(updated))],
            t.nextId, t.clock + 1)
  }

  /** A drop has no row to show: its entry carries the connection's id and no image. */
  function NoteDropOn(t: Table, conn: Row, notification: int, reason: string): Table {
    t.(ledger := t.ledger + [Entry(Update, EventRecordDropped, conn.id, None, None, Some(Drop(notification, reason)))])
  }

  /** The ledger says this connection dropped this notification. */
  predicate DroppedIn(ledger: seq<Entry>, connection: nat, notification: int) {
    exists i :: 0 <= i < |ledger| && ledger[i].id == connection && ledger[i].verb == EventRecordDropped
                && ledger[i].detail.Some? && ledger[i].detail.value.notification == notification
  }

  // ------------------------------------------------------------------
  // Replaying the ledger
  // ------------------------------------------------------------------

  /** What the ledger can rebuild of a row: everything but what a quiet poll touches unrecorded. */
  datatype Seen = Seen(id: nat, baseUrl: string, status: Status, cursor: Cursor)

  function See(row: Row): Seen { Seen(row.id, row.baseUrl, row.status, row.cursor) }

  function ReplayEntry(seen: map<string, Seen>, entry: Entry): map<string, Seen> {
    if entry.after.Some? then seen[entry.after.value.member := See(entry.after.value)]
    else if entry.action == Erase && entry.before.Some? then seen - {entry.before.value.member}
    else seen
  }

  function Replay(ledger: seq<Entry>): map<string, Seen> {
    if ledger == [] then map[] else ReplayEntry(Replay(ledger[..|ledger| - 1]), ledger[|ledger| - 1])
  }

  function SeenRows(rows: map<string, Row>): map<string, Seen> {
    map m | m in rows :: See(rows[m])
  }

  /** An entry tells the truth about the state it was written over. */
  predicate Fits(seen: map<string, Seen>, entry: Entry) {
    match entry.before
    case Some(row) => entry.action != Create && row.member in seen && seen[row.member] == See(row)
    case None =>
      entry.after.Some? ==> entry.action == Create && entry.after.value.member !in seen
  }

  /** Every before-image of the ledger is what the entries under it replay to. */
  predicate TruthfulLedger(ledger: seq<Entry>) {
    forall i :: 0 <= i < |ledger| ==> Fits(Replay(ledger[..i]), ledger[i])
  }

  /** The ledger rebuilds the table. */
  ghost predicate Rebuilds(t: Table) {
    && TruthfulLedger(t.ledger)
    && Replay(t.ledger) == SeenRows(t.rows)
    && forall m :: m in t.rows ==> t.rows[m].member == m
  }

  lemma AppendReplays(ledger: seq<Entry>, entry: Entry)
    requires TruthfulLedger(ledger) && Fits(Replay(ledger), entry)
    ensures TruthfulLedger(ledger + [entry])
    ensures Replay(ledger + [entry]) == ReplayEntry(Replay(ledger), entry)
  {
    var longer := ledger + [entry];
    assert longer[..|ledger|] == ledger;
    forall i | 0 <= i < |longer|
      ensures Fits(Replay(longer[..i]), longer[i])
    {
      assert i < |ledger| ==> longer[..i] == ledger[..i];
    }
  }

  lemma ConnectRebuilds(t: Table, member: string, baseUrl: string)
    requires Rebuilds(t)
    ensures Rebuilds(ConnectOn(t, member, baseUrl))
  {
    var before, stored := ConnectionOf(t, member), ConnectedRow(t, member, baseUrl);
    var entry := Recorded(AuditActionFor(before), EventConnected, before, Some(stored));
    ConnectFits(t, member, stored, entry);
    AppendReplays(t.ledger, entry);
    RowSeen(t.rows, member, stored);
  }

  lemma ConnectFits(t: Table, member: string, stored: Row, entry: Entry)
    requires Rebuilds(t) && stored.member == member
    requires var before := ConnectionOf(t, member);
             entry == Recorded(AuditActionFor(before), EventConnected, before, Some(stored))
    ensures Fits(Replay(t.ledger), entry)
  {
    if member in t.rows {
      assert SeenRows(t.rows)[member] == See(t.rows[member]);
    } else {
      assert member !in SeenRows(t.rows);
    }
  }

  lemma RowSeen(rows: map<string, Row>, member: string, row: Row)
    ensures SeenRows(rows[member := row]) == SeenRows(rows)[member := See(row)]
  {
  }

  lemma DisconnectRebuilds(t: Table, member: string)
    requires Rebuilds(t)
    ensures Rebuilds(DisconnectOn(t, member))
  {
    if member in t.rows {
      AppendReplays(t.ledger, Recorded(Erase, EventDisconnected, Some(t.rows[member]), None));
    }
  }

  lemma SaveCursorRebuilds(t: Table, conn: Row, account: string, workspace: string, at: Cursor)
    requires Rebuilds(t) && (Matches(t, conn) ==> t.rows[conn.member] == conn)
    ensures Rebuilds(SaveCursorOn(t, conn, account, workspace, at))
  {
    if Matches(t, conn) {
      var updated := SavedRow(t, conn, account, workspace, at);
      if at != conn.cursor {
        AppendReplays(t.ledger, Recorded(Update, EventPolled, Some(conn), Some(updated)));
      }
      RowSeen(t.rows, conn.member, updated);
    }
  }

  lemma NoteFailureRebuilds(t: Table, conn: Row, cause: Error)
    requires Rebuilds(t) && (Matches(t, conn) ==> t.rows[conn.member] == conn)
    ensures Rebuilds(NoteFailureOn(t, conn, cause))
  {
    if Matches(t, conn) {
      var updated := FailedRow(t, conn, cause);
      var verb := if FailureStatus(cause) == StatusReauth then EventReauth else EventPolled;
      AppendReplays(t.ledger, Recorded(Update, verb, Some(conn), Some(updated)));
    }
  }

  lemma NoteDropRebuilds(t: Table, conn: Row, notification: int, reason: string)
    requires Rebuilds(t)
    ensures Rebuilds(NoteDropOn(t, conn, notification, reason))
  {
    AppendReplays(t.ledger, Entry(Update, EventRecordDropped, conn.id, None, None, Some(Drop(notification, reason))));
  }

  // ------------------------------------------------------------------
  // What the ledger does not rebuild
  // ------------------------------------------------------------------

  /** The last image the ledger has of a member's row. */
  function LastImage(ledger: seq<Entry>, member: string): Option<Row> {
    if ledger == [] then None
    else
      var e := ledger[|ledger| - 1];
      if e.after.Some? && e.after.value.member == member then e.after
      else if e.action == Erase && e.before.Some? && e.before.value.member == member then None
      else LastImage(ledger[..|ledger| - 1], member)
  }

  /**
   Why the error class is not rebuilt: a successful poll clears it, and after one
   the ledger still tells it rightly exactly when the cursor moved or there was
   no class to clear.
   */
  lemma QuietSaveHidesTheClass(t: Table, conn: Row, account: string, workspace: string, at: Cursor)
    requires Matches(t, conn) && t.rows[conn.member] == conn
    requires var image := LastImage(t.ledger, conn.member);
             image.Some? && image.value.lastErrorClass == conn.lastErrorClass
    ensures var after := SaveCursorOn(t, conn, account, workspace, at);
            var image := LastImage(after.ledger, conn.member);
            && image.Some?
            && (image.value.lastErrorClass == after.rows[conn.member].lastErrorClass
                <==> at != conn.cursor || conn.lastErrorClass.None?)
  {
  }
}
