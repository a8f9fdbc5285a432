/**
 A whole tick over every connected member (extensions/relay-probe/poll.go and
 pollfailure.go): whose turn comes when, and what the tick answers.
 */
module RelayFleet {
  import opened Wrappers
  import opened RelayErrors
  import opened RelayCursor
  import opened RelayTable
  import opened RelayStore

  // ------------------------------------------------------------------
  // What a tick answers
  // ------------------------------------------------------------------

  /** One member's turn: how the poll ended, and whether recording its failure failed in turn. */
  datatype Outcome = Outcome(pollError: Option<Error>, noteError: Option<Error>)

  datatype TickResult =
    | Succeeded
    | Aborted(error: Error)
    | Rescheduled(failure: FailureClass)
    | Failed(failure: FailureClass)

  /** Every failure could be recorded. */
  predicate NotesSucceed(outcomes: seq<Outcome>) {
    forall i :: 0 <= i < |outcomes| && outcomes[i].pollError.Some? ==> outcomes[i].noteError.None?
  }

  /** The error is that of the first failure which could not be recorded. */
  ghost predicate FirstFailedNote(outcomes: seq<Outcome>, error: Error) {
    exists i :: 0 <= i < |outcomes| && NotesSucceed(outcomes[..i])
                && outcomes[i].pollError.Some? && outcomes[i].noteError == Some(error)
  }

  /** Every member failed, and in this one way. */
  predicate AllFailedAs(outcomes: seq<Outcome>, failure: FailureClass) {
    forall i :: 0 <= i < |outcomes| ==> outcomes[i].pollError.Some? && ClassOf(outcomes[i].pollError.value) == failure
  }

  predicate SomeoneSucceeded(outcomes: seq<Outcome>) {
    exists i :: 0 <= i < |outcomes| && outcomes[i].pollError.None?
  }

  method FleetFailure(contextDone: bool, failed: seq<FailureClass>) returns (result: TickResult)
    requires failed != []
    ensures (exists i :: 0 <= i < |failed| && failed[i] != failed[0]) ==> result == Failed(EveryMemberFailed)
    ensures (forall i :: 0 <= i < |failed| ==> failed[i] == failed[0]) ==>
              result == if failed[0] == ProviderUnavailable && !contextDone then Rescheduled(failed[0]) else Failed(failed[0])
  {
    var shared := failed[0];
    for i := 1 to |failed|
      invariant forall j :: 0 <= j < i ==> failed[j] == shared
    {
      if failed[i] != shared {
        return Failed(EveryMemberFailed);
      }
    }
    if shared == ProviderUnavailable && !contextDone {
      result := Rescheduled(shared);
    } else {
      result := Failed(shared);
    }
  }

  /**
   The tick's answer for any fleet and any mix of outcomes: success when there
   is nobody to poll or somebody's poll worked, a postponement exactly when
   nobody could reach the provider while the tick's own context was live, and a
   failure naming the class they share otherwise, or that they share none.
   */
  method PollFleet(outcomes: seq<Outcome>, contextDone: bool) returns (result: TickResult)
    ensures !NotesSucceed(outcomes) ==> result.Aborted? && FirstFailedNote(outcomes, result.error)
    ensures NotesSucceed(outcomes) ==>
              && (result == Succeeded <==> outcomes == [] || SomeoneSucceeded(outcomes))
              && (result.Rescheduled? <==> outcomes != [] && AllFailedAs(outcomes, ProviderUnavailable) && !contextDone)
              && (result.Rescheduled? ==> result.failure == ProviderUnavailable)
              && (forall failure :: outcomes != [] && AllFailedAs(outcomes, failure) && result.Failed? ==>
                    result.failure == failure)
              && (result.Failed? && !(exists failure :: AllFailedAs(outcomes, failure)) ==>
                    result.failure == EveryMemberFailed)
              && !result.Aborted?
  {
    var failed: seq<FailureClass> := [];
    for i := 0 to |outcomes|
      invariant NotesSucceed(outcomes[..i]) && |failed| <= i
      invariant |failed| == i <==> !SomeoneSucceeded(outcomes[..i])
      invariant |failed| == i ==> forall j :: 0 <= j < i ==> failed[j] == ClassOf(outcomes[j].pollError.value)
    {
      var polled := outcomes[i].pollError;
      assert forall j :: 0 <= j < i ==> outcomes[..i + 1][j] == outcomes[..i][j];
      if polled.None? {
        assert outcomes[..i + 1][i].pollError.None?;
        continue;
      }
      failed := failed + [ClassOf(polled.value)];
      if outcomes[i].noteError.Some? {
        return Aborted(outcomes[i].noteError.value);
      }
    }
    assert outcomes[..|outcomes|] == outcomes;
    if |failed| > 0 && |failed| == |outcomes| {
      result := FleetFailure(contextDone, failed);
      assert (forall i :: 0 <= i < |failed| ==> failed[i] == failed[0]) ==> AllFailedAs(outcomes, failed[0]);
    } else {
      result := Succeeded;
    }
  }

  // ------------------------------------------------------------------
  // Whose turn comes when
  // ------------------------------------------------------------------

  /** The order of a tick: never polled first, then least recently polled, then oldest connection. */
  predicate Precedes(a: Row, b: Row) {
    match (a.lastPolledAt, b.lastPolledAt)
    case (None, None) => a.id < b.id
    case (None, Some(_)) => true
    case (Some(_), None) => false
    case (Some(x), Some(y)) => x < y || (x == y && a.id < b.id)
  }

  predicate InTurnOrder(rows: seq<Row>) {
    forall i, j :: 0 <= i < j < |rows| ==> Precedes(rows[i], rows[j])
  }

  /** Who is polled first: whoever never was, then whoever was longest ago, then whoever connected first. */
  lemma TurnsSay(rows: seq<Row>, i: nat, j: nat)
    requires InTurnOrder(rows) && i < j < |rows|
    ensures rows[j].lastPolledAt.None? ==> rows[i].lastPolledAt.None?
    ensures rows[i].lastPolledAt.Some? && rows[j].lastPolledAt.Some? ==> rows[i].lastPolledAt.value <= rows[j].lastPolledAt.value
    ensures rows[i].lastPolledAt == rows[j].lastPolledAt ==> rows[i].id < rows[j].id
  {
    assert Precedes(rows[i], rows[j]);
  }

  method InsertTurn(row: Row, order: seq<Row>) returns (longer: seq<Row>)
    requires InTurnOrder(order) && forall other :: other in order ==> other.id != row.id
    ensures InTurnOrder(longer) && multiset(longer) == multiset(order) + multiset{row}
  {
    var i := 0;
    while i < |order| && Precedes(order[i], row)
      invariant i <= |order|
      invariant forall k :: 0 <= k < i ==> Precedes(order[k], row)
    {
      i := i + 1;
    }
    longer := order[..i] + [row] + order[i..];
    assert order == order[..i] + order[i..];
    assert i < |order| ==> Precedes(row, order[i]);
    InTurnAfterAll(row, order, i);
  }

  lemma InTurnAfterAll(row: Row, order: seq<Row>, i: nat)
    requires i <= |order| && InTurnOrder(order)
    requires forall k :: 0 <= k < i ==> Precedes(order[k], row)
    requires i < |order| ==> Precedes(row, order[i])
    ensures InTurnOrder(order[..i] + [row] + order[i..])
  {
    forall k | i <= k < |order| ensures Precedes(row, order[k]) {
      assert k > i ==> Precedes(order[i], order[k]);
    }
  }

  /** The connected members in the order a tick polls them: each once, and nobody else. */
  method ConnectedMembers(table: ConnectionTable) returns (found: seq<Row>)
    requires forall m, n :: m in table.rows && n in table.rows && table.rows[m].id == table.rows[n].id ==> m == n
    ensures InTurnOrder(found)
    ensures forall row :: row in found <==> row.status == StatusConnected && exists m :: m in table.rows && table.rows[m] == row
  {
    found := [];
    var left := table.rows.Keys;
    while left != {}
      invariant left <= table.rows.Keys && InTurnOrder(found)
      invariant forall row :: row in multiset(found) <==>
                  row.status == StatusConnected && exists m :: m in table.rows && m !in left && table.rows[m] == row
      decreases left
    {
      var m :| m in left;
      left := left - {m};
      var row := table.rows[m];
      if row.status == StatusConnected {
        forall other | other in found ensures other.id != row.id {
          assert other in multiset(found);
        }
        found := InsertTurn(row, found);
      }
    }
    assert forall row :: row in found <==> row in multiset(found);
  }

  // ------------------------------------------------------------------
  // Fairness
  // ------------------------------------------------------------------

  /** The members of a workspace, by name: their rows as a tick finds them. */
  type Fleet = map<string, Row>

  ghost predicate Distinct(fleet: Fleet) {
    forall a, b :: a in fleet && b in fleet && fleet[a].id == fleet[b].id ==> a == b
  }

  /** The member whose turn is first. */
  ghost predicate IsFirst(fleet: Fleet, m: string) {
    m in fleet && forall a :: a in fleet && a != m ==> Precedes(fleet[m], fleet[a])
  }

  /** One tick over a fixed fleet: at least the first turn is stamped, later than every stamp before it. */
  ghost predicate Stamps(before: Fleet, after: Fleet, polled: set<string>) {
    && after.Keys == before.Keys && polled <= before.Keys
    && (forall m :: m in before ==> after[m].id == before[m].id)
    && (forall m :: m in before && m !in polled ==> after[m] == before[m])
    && (forall m :: m in polled ==> after[m].lastPolledAt.Some? && Newest(before, after[m].lastPolledAt.value))
    && (before.Keys != {} ==> exists first :: first in polled && IsFirst(before, first))
  }

  ghost predicate Newest(fleet: Fleet, stamp: nat) {
    forall a :: a in fleet && fleet[a].lastPolledAt.Some? ==> fleet[a].lastPolledAt.value < stamp
  }

  /** Who is still ahead of a member. */
  ghost function Ahead(fleet: Fleet, m: string): set<string>
    requires m in fleet
  {
    set a | a in fleet && a != m && Precedes(fleet[a], fleet[m])
  }

  lemma TickMovesUp(before: Fleet, after: Fleet, polled: set<string>, m: string)
    requires Distinct(before) && Stamps(before, after, polled) && m in before && m !in polled
    ensures Ahead(after, m) < Ahead(before, m)
    ensures |Ahead(after, m)| < |Ahead(before, m)|
  {
    var first :| first in polled && IsFirst(before, first);
    assert first in Ahead(before, m) && first !in Ahead(after, m);
    assert forall a :: a in polled ==> !Precedes(after[a], after[m]);
    SmallerSet(Ahead(after, m), Ahead(before, m));
  }

  lemma SmallerSet<T>(a: set<T>, b: set<T>)
    requires a < b
    ensures |a| < |b|
  {
    assert b == a + (b - a) && |b - a| > 0;
  }

  /** A run of ticks over a fixed fleet. */
  ghost predicate Ticks(fleets: seq<Fleet>, polled: seq<set<string>>) {
    && |fleets| == |polled| + 1
    && forall i :: 0 <= i < |polled| ==> Stamps(fleets[i], fleets[i + 1], polled[i])
  }

  lemma {:induction false} AheadRunsOut(fleets: seq<Fleet>, polled: seq<set<string>>, m: string)
    requires Ticks(fleets, polled) && Distinct(fleets[0]) && m in fleets[0]
    requires forall i :: 0 <= i < |polled| ==> m !in polled[i]
    ensures |polled| <= |Ahead(fleets[0], m)|
    decreases |polled|
  {
    if polled != [] {
      assert Stamps(fleets[0], fleets[0 + 1], polled[0]);
      TickMovesUp(fleets[0], fleets[1], polled[0], m);
      AheadRunsOut(fleets[1..], polled[1..], m);
    }
  }

  /** POLLING IS FAIR: of n connected members, each is polled within any n consecutive ticks. */
  lemma EveryoneGetsATurn(fleets: seq<Fleet>, polled: seq<set<string>>, m: string)
    requires Ticks(fleets, polled) && Distinct(fleets[0]) && m in fleets[0]
    requires |polled| == |fleets[0]|
    ensures exists i :: 0 <= i < |polled| && m in polled[i]
  {
    if forall i :: 0 <= i < |polled| ==> m !in polled[i] {
      AheadRunsOut(fleets, polled, m);
      assert Ahead(fleets[0], m) < fleets[0].Keys;
      SmallerSet(Ahead(fleets[0], m), fleets[0].Keys);
    }
  }

  // ------------------------------------------------------------------
  // A tick of the table is such a tick
  // ------------------------------------------------------------------

  /** The clock behind the stamps: every row was stamped before now. */
  ghost predicate Stamped(t: Table) {
    forall m :: m in t.rows && t.rows[m].lastPolledAt.Some? ==> t.rows[m].lastPolledAt.value < t.clock
  }

  /** How one member's poll ended: with what it would save, or with what it failed of. */
  datatype Turn = Turn(account: string, workspace: string, at: Cursor, failed: Option<Error>)

  /** The write a turn ends with, on the row it read. */
  function TurnOn(t: Table, conn: Row, turn: Turn): Table {
    match turn.failed
    case Some(cause) => NoteFailureOn(t, conn, cause)
    case None => SaveCursorOn(t, conn, turn.account, turn.workspace, turn.at)
  }

  /** A tick that gets as far as `turns` down its order. */
  function TickOn(t: Table, order: seq<Row>, turns: seq<Turn>): Table
    requires |turns| <= |order|
  {
    if turns == [] then t
    else
      var n := |turns| - 1;
      TurnOn(TickOn(t, order, turns[..n]), order[n], turns[n])
  }

  /** `order` is what `ConnectedMembers` finds in this table, whose rows are keyed and told apart by id. */
  ghost predicate TurnOrder(t: Table, order: seq<Row>) {
    && Stamped(t)
    && (forall m :: m in t.rows ==> t.rows[m].member == m)
    && (forall m, n :: m in t.rows && n in t.rows && t.rows[m].id == t.rows[n].id ==> m == n)
    && InTurnOrder(order)
    && forall row :: row in order <==> row.status == StatusConnected && row.member in t.rows && t.rows[row.member] == row
  }

  /** No turn parks its member: the set of connected members stays as it is. */
  predicate NobodyParks(turns: seq<Turn>) {
    forall i :: 0 <= i < |turns| && turns[i].failed.Some? ==> ErrUnauthorized !in turns[i].failed.value
  }

  /** Both ways a turn ends stamp its row later than every other, or find it gone and touch nothing. */
  lemma TurnsStamp(t: Table, conn: Row, turn: Turn)
    requires Stamped(t)
    ensures var u := TurnOn(t, conn, turn);
            && Stamped(u)
            && (if Matches(t, conn)
                then u.rows[conn.member].lastPolledAt == Some(t.clock) && Newest(t.rows, t.clock)
                else u == t)
  {
  }

  lemma DistinctTurns(t: Table, order: seq<Row>, i: nat, j: nat)
    requires TurnOrder(t, order) && i < j < |order|
    ensures order[i].member != order[j].member
  {
    assert Precedes(order[i], order[j]);
    assert order[i] in order && order[j] in order;
  }

  /** Where a tick leaves the rows: those whose turn came are stamped in it, and the others as they were. */
  ghost predicate TickLeaves(t: Table, order: seq<Row>, n: nat, u: Table)
    requires n <= |order|
  {
    && Stamped(u) && u.clock == t.clock + n && u.rows.Keys == t.rows.Keys
    && (forall i :: n <= i < |order| ==> order[i].member in u.rows && u.rows[order[i].member] == order[i])
    && (forall i :: 0 <= i < n ==> order[i].member in u.rows && StampedIn(t, order[i], u.rows[order[i].member]))
    && (forall m :: m in t.rows && t.rows[m].status != StatusConnected ==> u.rows[m] == t.rows[m])
  }

  ghost predicate StampedIn(t: Table, before: Row, after: Row) {
    && after.id == before.id && after.status == StatusConnected
    && after.lastPolledAt.Some? && t.clock <= after.lastPolledAt.value
  }

  lemma {:induction false} AfterTurns(t: Table, order: seq<Row>, turns: seq<Turn>)
    requires TurnOrder(t, order) && |turns| <= |order| && NobodyParks(turns)
    ensures TickLeaves(t, order, |turns|, TickOn(t, order, turns))
    decreases |turns|
  {
    if turns == [] {
      forall i | 0 <= i < |order| ensures order[i].member in t.rows && t.rows[order[i].member] == order[i] {
        assert order[i] in order;
      }
    } else {
      var n := |turns| - 1;
      AfterTurns(t, order, turns[..n]);
      forall i | 0 <= i < |order| && i != n ensures order[i].member != order[n].member {
        DistinctTurns(t, order, if i < n then i else n, if i < n then n else i);
      }
      assert order[n] in order;
      OneTurn(t, order, n, TickOn(t, order, turns[..n]), turns[n]);
    }
  }

  lemma OneTurn(t: Table, order: seq<Row>, n: nat, u: Table, turn: Turn)
    requires n < |order| && TickLeaves(t, order, n, u)
    requires turn.failed.Some? ==> ErrUnauthorized !in turn.failed.value
    requires forall i :: 0 <= i < |order| && i != n ==> order[i].member != order[n].member
    requires order[n].status == StatusConnected && order[n].member in t.rows && t.rows[order[n].member] == order[n]
    ensures TickLeaves(t, order, n + 1, TurnOn(u, order[n], turn))
  {
    assert Matches(u, order[n]);
  }

  /** The connected members of a table. */
  function FleetOf(t: Table): Fleet {
    map m | m in t.rows && t.rows[m].status == StatusConnected :: t.rows[m]
  }

  function Members(order: seq<Row>, n: nat): set<string>
    requires n <= |order|
  {
    set i | 0 <= i < n :: order[i].member
  }

  /** A tick over the table is a tick over its fleet. */
  lemma TickStamps(t: Table, order: seq<Row>, turns: seq<Turn>)
    requires TurnOrder(t, order) && |turns| <= |order| && NobodyParks(turns) && (order != [] ==> turns != [])
    ensures Stamps(FleetOf(t), FleetOf(TickOn(t, order, turns)), Members(order, |turns|))
  {
    var u := TickOn(t, order, turns);
    AfterTurns(t, order, turns);
    EveryRowHasATurn(t, order);
    FleetIsKept(t, order, |turns|, u);
    if order != [] {
      FirstIsFirst(t, order);
      assert order[0].member in Members(order, |turns|);
    }
  }

  lemma EveryRowHasATurn(t: Table, order: seq<Row>)
    requires TurnOrder(t, order)
    ensures forall m :: m in FleetOf(t) ==> exists i :: 0 <= i < |order| && order[i].member == m && order[i] == t.rows[m]
    ensures order == [] ==> FleetOf(t).Keys == {}
  {
    forall m | m in FleetOf(t) ensures exists i :: 0 <= i < |order| && order[i].member == m && order[i] == t.rows[m] {
      assert t.rows[m] in order;
    }
  }

  lemma FirstIsFirst(t: Table, order: seq<Row>)
    requires TurnOrder(t, order) && order != []
    ensures IsFirst(FleetOf(t), order[0].member)
  {
    assert order[0] in order;
    EveryRowHasATurn(t, order);
  }

  lemma FleetIsKept(t: Table, order: seq<Row>, n: nat, u: Table)
    requires TurnOrder(t, order) && n <= |order| && TickLeaves(t, order, n, u)
    ensures var before, after := FleetOf(t), FleetOf(u);
      && after.Keys == before.Keys && Members(order, n) <= before.Keys
      && (forall m :: m in before ==> after[m].id == before[m].id)
      && (forall m :: m in before && m !in Members(order, n) ==> after[m] == before[m])
      && (forall m :: m in Members(order, n) ==> after[m].lastPolledAt.Some? && Newest(before, after[m].lastPolledAt.value))
  {
    EveryRowHasATurn(t, order);
    forall i | 0 <= i < |order| ensures order[i].member in FleetOf(t) {
      assert order[i] in order;
    }
  }

  /** A run of ticks over one table, nobody else writing to it: each polls at least its first turn. */
  ghost predicate TickRun(tables: seq<Table>, orders: seq<seq<Row>>, turns: seq<seq<Turn>>) {
    && |tables| == |orders| + 1 && |turns| == |orders|
    && forall i :: 0 <= i < |orders| ==>
         && TurnOrder(tables[i], orders[i]) && |turns[i]| <= |orders[i]| && NobodyParks(turns[i])
         && (orders[i] != [] ==> turns[i] != [])
         && tables[i + 1] == TickOn(tables[i], orders[i], turns[i])
  }

  /** POLLING IS FAIR, of the table's own ticks: each of n connected members has its turn within any n of them. */
  lemma EveryMemberIsPolled(tables: seq<Table>, orders: seq<seq<Row>>, turns: seq<seq<Turn>>, m: string)
    requires TickRun(tables, orders, turns) && m in FleetOf(tables[0]) && |orders| == |FleetOf(tables[0])|
    ensures exists i :: 0 <= i < |orders| && |turns[i]| <= |orders[i]| && m in Members(orders[i], |turns[i]|)
  {
    var fleets := seq(|tables|, i requires 0 <= i < |tables| => FleetOf(tables[i]));
    var polled := seq(|orders|, i requires 0 <= i < |orders| => Members(orders[i], |turns[i]|));
    forall i | 0 <= i < |polled| ensures Stamps(fleets[i], fleets[i + 1], polled[i]) {
      TickStamps(tables[i], orders[i], turns[i]);
    }
    if orders != [] {
      assert TurnOrder(tables[0], orders[0]);
    }
    EveryoneGetsATurn(fleets, polled, m);
  }
}
