/**
 The notepad itself: each operation writing its rows and its ledger in place,
 proved to take the state where the operation's specification does.
 */
module NotesPad {
  import opened Wrappers
  import opened NotesRows
  import opened NotesLedger

  /** Why an operation is refused before anything is written. */
  datatype Refusal = BadBody | BadSubject | BadId | CoreRefused

  class Notepad {
    var table: Table
    var ledger: seq<Entry>

    constructor ()
      ensures Now() == State(map[], [])
    {
      table, ledger := map[], [];
    }

    function Now(): State
      reads this
    {
      State(table, ledger)
    }

    /** One entry for one write: the row's id comes from whichever side of the write it has. */
    method RecordNote(action: Action, verb: Verb, before: Option<Row>, after: Option<Row>)
      requires before.Some? || after.Some?
      modifies this`ledger
      ensures ledger == old(ledger) + [Entry(action, verb,
                if after.Some? then after.value.id else before.value.id,
                if before.Some? then Some(ImageOf(before.value)) else None,
                if after.Some? then Some(ImageOf(after.value)) else None)]
    {
      var subject := if after.Some? then after else before;
      var beforeImage := if before.Some? then Some(ImageOf(before.value)) else None;
      var afterImage := if after.Some? then Some(ImageOf(after.value)) else None;
      ledger := ledger + [Entry(action, verb, subject.value.id, beforeImage, afterImage)];
    }

    method AddNote(caller: Caller, raw: string, id: nat, now: nat) returns (added: Result<Row, Refusal>)
      requires id !in table
      modifies this
      ensures Now() == Step(old(Now()), Add(caller, raw, id, now))
      ensures added == match NoteBody(raw)
                       case Some(body) => Ok(Row(id, Note, body, CallerAuthor(caller), None, now))
                       case None => Err(BadBody)
    {
      var body := NoteBody(raw);
      if body.None? {
        return Err(BadBody);
      }
      var row := Row(id, Note, body.value, CallerAuthor(caller), None, now);
      table := table[id := row];
      RecordNote(Create, NoteAdded, None, Some(row));
      added := Ok(row);
    }

    method FileNote(caller: Caller, raw: string, subject: bool, activity: Option<nat>, id: nat, now: nat)
      returns (filed: Result<Row, Refusal>)
      requires id !in table
      modifies this
      ensures Now() == Step(old(Now()), File(caller, raw, subject, activity, id, now))
      ensures filed.Ok? <==> NoteBody(raw).Some? && subject && activity.Some?
      ensures filed.Ok? ==> filed.value == Row(id, Note, NoteBody(raw).value, CallerAuthor(caller), activity, now)
      ensures filed.Err? ==>
                filed.error == if NoteBody(raw).None? then BadBody else if !subject then BadSubject else CoreRefused
    {
      var body := NoteBody(raw);
      if body.None? {
        return Err(BadBody);
      }
      if !subject {
        return Err(BadSubject);
      }
      if activity.None? {
        return Err(CoreRefused);
      }
      var row := Row(id, Note, body.value, CallerAuthor(caller), activity, now);
      table := table[id := row];
      RecordNote(Create, NoteFiled, None, Some(row));
      filed := Ok(row);
    }

    method RemoveNote(requested: Option<nat>) returns (removed: Result<bool, Refusal>)
      requires Keyed(table)
      modifies this
      ensures Now() == Step(old(Now()), Remove(requested))
      ensures removed == if requested.Some? then Ok(requested.value in old(table)) else Err(BadId)
    {
      if requested.None? {
        return Err(BadId);
      }
      var id := requested.value;
      if id !in table {
        return Ok(false);
      }
      var gone := table[id];
      table := table - {id};
      RecordNote(Erase, NoteRemoved, Some(gone), None);
      removed := Ok(true);
    }

    /** Take the filing off every note that named the activity; the rows come back as they now stand. */
    method ClearFilings(activity: nat) returns (order: seq<nat>, withdrawn: seq<Row>)
      requires Keyed(table)
      modifies this`table
      ensures Orders(order, FiledTo(old(table), activity))
      ensures table == Cleared(old(table), FiledTo(old(table), activity))
      ensures |withdrawn| == |order| && forall i :: 0 <= i < |order| ==> order[i] in table && withdrawn[i] == table[order[i]]
    {
      var matched := FiledTo(table, activity);
      var left := matched;
      table := Cleared(table, matched);
      order, withdrawn := [], [];
      while left != {}
        invariant left <= matched && Once(order)
        invariant forall id :: id in order <==> id in matched - left
        invariant |withdrawn| == |order|
        invariant forall i :: 0 <= i < |order| ==> order[i] in table && withdrawn[i] == table[order[i]]
        decreases left
      {
        var id :| id in left;
        assert id !in order;
        left := left - {id};
        order, withdrawn := order + [id], withdrawn + [table[id]];
      }
    }

    /** `order` is the order the update answered its rows in. */
    method WithdrawFiling(activity: Option<nat>) returns (order: seq<nat>)
      requires Keyed(table)
      modifies this
      ensures Enabled(old(Now()), Withdraw(activity, order))
      ensures Now() == Step(old(Now()), Withdraw(activity, order))
    {
      order := [];
      if activity.None? {
        return;
      }
      var withdrawn: seq<Row>;
      order, withdrawn := ClearFilings(activity.value);
      assert forall id :: id in order ==> id in table;
      for i := 0 to |withdrawn|
        invariant table == Cleared(old(table), FiledTo(old(table), activity.value)) && Keyed(table)
        invariant ledger == old(ledger) + Withdrawals(table, order[..i], activity.value)
      {
        var after := withdrawn[i];
        var before := after.(filed := activity);
        RecordNote(Update, FilingWithdrawn, Some(before), Some(after));
        assert order[..i + 1][..i] == order[..i];
      }
      assert order[..|withdrawn|] == order;
    }

    method HeartbeatTick(text: string, id: nat, now: nat)
      requires id !in table
      modifies this`table
      ensures Now() == Step(old(Now()), Tick(text, id, now))
      ensures (forall other :: other in old(table) && old(table)[other].kind.Heartbeat? ==> old(table)[other].created < now) ==>
                id in table
    {
      ghost var before := table;
      table := table[id := Row(id, Heartbeat, text, None, None, now)];
      var kept := Newest(Heartbeats(table), KEPT_HEARTBEATS);
      if forall other :: other in before && before[other].kind.Heartbeat? ==> before[other].created < now {
        assert table[id] in Heartbeats(table);
        LatestIsNewest(Heartbeats(table), KEPT_HEARTBEATS, table[id]);
      }
      table := map other | other in table && (table[other].kind.Note? || table[other] in kept) :: table[other];
    }
  }
}
