/**
 The table as the unit's handlers drive it: each method is one transaction,
 statement by statement.
 */
module RelayStore {
  import opened Wrappers
  import opened RelayErrors
  import opened RelayCursor
  import opened RelayTable

  class ConnectionTable {
    var rows: map<string, Row>
    var ledger: seq<Entry>
    var nextId: nat
    var clock: nat

    constructor ()
      ensures State() == Table(map[], [], 0, 0)
    {
      rows, ledger, nextId, clock := map[], [], 0, 0;
    }

    function State(): Table
      reads this
    {
      Table(rows, ledger, nextId, clock)
    }

    /** Deposits a connection for the caller, who must be a person. */
    method Connect(caller: string, baseUrl: string) returns (stored: Result<Row, Error>)
      modifies this
      ensures caller == "" ==> stored == Err({ErrForbidden}) && State() == old(State())
      ensures caller != "" ==> State() == ConnectOn(old(State()), caller, baseUrl) && stored == Ok(rows[caller])
      ensures stored.Ok? ==>
                && stored.value.member == old(if caller in rows then rows[caller].member else caller)
                && stored.value.baseUrl == baseUrl && stored.value.status == StatusConnected && stored.value.lastErrorClass == None
    {
      if caller == "" {
        return Err({ErrForbidden});
      }
      var before := if caller in rows then Some(rows[caller]) else None;
      var row: Row;
      if before.None? {
        row := Row(nextId, caller, baseUrl, StatusConnected, "", "", UNREAD_ACCOUNT, None, None, 1);
        nextId := nextId + 1;
      } else {
        row := before.value.(baseUrl := baseUrl, status := StatusConnected, lastErrorClass := None,
                             version := before.value.version + 1);
        if before.value.baseUrl != baseUrl {
          row := row.(cursor := UNREAD_ACCOUNT, providerWorkspace := "");
        }
      }
      rows := rows[caller := row];
      ledger := ledger + [Recorded(AuditActionFor(before), EventConnected, before, Some(row))];
      clock := clock + 1;
      stored := Ok(row);
    }

    /** Removes the caller's connection, if there is one. */
    method Disconnect(caller: string) returns (removed: Result<bool, Error>)
      modifies this
      ensures caller == "" ==> removed == Err({ErrForbidden}) && State() == old(State())
      ensures caller != "" ==> State() == DisconnectOn(old(State()), caller) && removed == Ok(caller in old(rows))
    {
      if caller == "" {
        return Err({ErrForbidden});
      }
      if caller !in rows {
        return Ok(false);
      }
      var gone := rows[caller];
      rows := rows - {caller};
      ledger := ledger + [Recorded(Erase, EventDisconnected, Some(gone), None)];
      clock := clock + 1;
      removed := Ok(true);
    }

    /** Writes what a poll decided, on the version it read; a quiet poll is not recorded. */
    method SaveCursor(conn: Row, account: string, workspace: string, at: Cursor)
      modifies this
      ensures State() == SaveCursorOn(old(State()), conn, account, workspace, at)
    {
      if conn.member !in rows || rows[conn.member].id != conn.id || rows[conn.member].version != conn.version {
        return;
      }
      var row := rows[conn.member];
      var updated := row.(cursor := at, accountLabel := account, providerWorkspace := workspace,
                          lastPolledAt := Some(clock), lastErrorClass := None, version := row.version + 1);
      rows := rows[conn.member := updated];
      clock := clock + 1;
      if updated.cursor != conn.cursor {
        ledger := ledger + [Recorded(Update, EventPolled, Some(conn), Some(updated))];
      }
    }

    /** Records a failed poll, on the version it read: a rejected token parks the connection. */
    method NoteFailure(conn: Row, cause: Error)
      modifies this
      ensures State() == NoteFailureOn(old(State()), conn, cause)
    {
      if conn.member !in rows || rows[conn.member].id != conn.id || rows[conn.member].version != conn.version {
        return;
      }
      var status, verb := StatusConnected, EventPolled;
      if ErrUnauthorized in cause {
        status, verb := StatusReauth, EventReauth;
      }
      var row := rows[conn.member];
      var updated := row.(status := status, lastErrorClass := Some(ClassOf(cause)),
                          lastPolledAt := Some(clock), version := row.version + 1);
      rows := rows[conn.member := updated];
      ledger := ledger + [Recorded(Update, verb, Some(conn), Some(updated))];
      clock := clock + 1;
    }

    method NoteDrop(conn: Row, notification: int, reason: string)
      modifies this
      ensures State() == NoteDropOn(old(State()), conn, notification, reason)
    {
      ledger := ledger + [Entry(Update, EventRecordDropped, conn.id, None, None, Some(Drop(notification, reason)))];
    }
  }
}
