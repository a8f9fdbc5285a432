/**
 The poll protocol as a whole: members connect, reconnect and disconnect,
 notifications arrive, and any number of polls run, overlap, fail and crash,
 their steps interleaved in any order.

 Assumed of the world outside the unit: ids arrive in increasing order and are
 issued once per provider workspace; a transaction is atomic; the core takes at
 most one record per key; one member's connection to one base URL always reads
 the same account.
 */
module RelayProtocol {
  import opened RelayErrors
  import opened RelayFeed
  import opened RelayCursor
  import opened RelayRecord
  import opened RelayTable
  import opened RelayPollSteps

  /** Whose inbox, on which deployment. */
  datatype Account = Account(member: string, baseUrl: string)

  datatype Mailbox = Mailbox(workspace: string, feed: Feed)

  /**
   What is outside the table: the inboxes, what the core took, the keys its
   breadcrumbs say it skipped, and under which row each account's dropped
   notifications were dropped (the ledger's own entry names the row and the id
   only).
   */
  datatype World =
    World(boxes: map<Account, Mailbox>, landed: seq<Landed>, skipped: set<string>, dropped: map<(Account, int), nat>)

  /** `baselines` records, per connected member, the id under which the first poll that read anything never looked. */
  datatype State = State(table: Table, baselines: map<string, int>, world: World, polls: map<nat, Poll>)

  datatype Verdict = Taken | SkippedByTheCore | Unrepresentable | RefusedByTheCore

  datatype Event =
    | Arrive(account: Account, item: Item)
    | Connect(member: string, baseUrl: string)
    | Disconnect(member: string)
    | Begin(pid: nat, member: string)
    | FetchPage(pid: nat, size: nat, more: bool)
    | Decide(pid: nat, verdict: Verdict)
    | Conclude(pid: nat)
    | Save(pid: nat, accountLabel: string)
    | Fail(pid: nat, cause: Error)
    | Note(pid: nat)
    | Crash(pid: nat)

  function FeedOf(w: World, a: Account): Feed {
    if a in w.boxes then w.boxes[a].feed else []
  }

  function WorkspaceOf(w: World, a: Account): string {
    if a in w.boxes then w.boxes[a].workspace else ""
  }

  function AccountOf(row: Row): Account { Account(row.member, row.baseUrl) }

  function RecordOf(w: World, a: Account, item: Item): Landed {
    Landed(Key(WorkspaceOf(w, a), item.id), a.member, item)
  }

  /** Filtered as not directed, recorded as dropped, in the core as its own record, or skipped by the core. */
  predicate Decided(w: World, a: Account, item: Item) {
    || !Directed(item)
    || (a, item.id) in w.dropped
    || RecordOf(w, a, item) in w.landed
    || RecordOf(w, a, item).key in w.skipped
  }

  function DecidedItems(w: World, a: Account): set<Item> {
    set it | it in FeedOf(w, a) && Decided(w, a, it)
  }

  // ------------------------------------------------------------------
  // The steps
  // ------------------------------------------------------------------

  /** Nobody else in the same provider workspace was ever issued this id. */
  predicate FreshId(w: World, a: Account, id: int) {
    forall b :: b in w.boxes && b != a && w.boxes[b].workspace == WorkspaceOf(w, a) ==> id !in Ids(w.boxes[b].feed)
  }

  predicate Enabled(s: State, e: Event) {
    match e
    case Arrive(a, item) =>
      a in s.world.boxes && 0 < item.id && FreshId(s.world, a, item.id)
      && forall it :: it in FeedOf(s.world, a) ==> it.id < item.id
    case Connect(_, _) => true
    case Disconnect(_) => true
    case Begin(pid, m) => pid !in s.polls && m in s.table.rows && s.table.rows[m].status == StatusConnected
    case FetchPage(pid, _, _) => pid in s.polls && s.polls[pid].phase.Walking? && AccountOf(s.polls[pid].conn) in s.world.boxes
    case Decide(pid, _) =>
      pid in s.polls && s.polls[pid].phase.Landing? && s.polls[pid].phase.done < |s.polls[pid].phase.todo|
    case Conclude(pid) =>
      pid in s.polls && s.polls[pid].phase.Landing? && s.polls[pid].phase.done == |s.polls[pid].phase.todo|
    case Save(pid, _) => pid in s.polls && s.polls[pid].phase.Saving?
    case Fail(pid, _) => pid in s.polls && !s.polls[pid].phase.Noting?
    case Note(pid) => pid in s.polls && s.polls[pid].phase.Noting?
    case Crash(pid) => pid in s.polls
  }

  function Arrived(w: World, a: Account, item: Item): World
    requires a in w.boxes
  {
    w.(boxes := w.boxes[a := w.boxes[a].(feed := w.boxes[a].feed + [item])])
  }

  /** Landing one item: only a directed one reaches the core, and a refusal for good is a recorded drop. */
  function DecideItem(s: State, conn: Row, item: Item, verdict: Verdict): State {
    var a := AccountOf(conn);
    if !Directed(item) then s
    else match verdict
      case Taken => s.(world := s.world.(landed := Ingest(s.world.landed, RecordOf(s.world, a, item))))
      case SkippedByTheCore =>
        s.(world := s.world.(skipped := s.world.skipped + {RecordOf(s.world, a, item).key}))
      case Unrepresentable =>
        s.(world := s.world.(dropped := s.world.dropped[(a, item.id) := conn.id]),
           table := NoteDropOn(s.table, conn, item.id, "unrepresentable"))
      case RefusedByTheCore =>
        s.(world := s.world.(dropped := s.world.dropped[(a, item.id) := conn.id]),
           table := NoteDropOn(s.table, conn, item.id, "refused_by_the_core"))
  }

  function Step(s: State, e: Event): State
    requires Enabled(s, e)
  {
    match e
    case Arrive(a, item) => s.(world := Arrived(s.world, a, item))
    case Connect(m, url) =>
      s.(table := ConnectOn(s.table, m, url),
         baselines := if m in s.table.rows && s.table.rows[m].baseUrl == url then s.baselines else s.baselines[m := 0])
    case Disconnect(m) => s.(table := DisconnectOn(s.table, m), baselines := s.baselines - {m})
    case Begin(pid, m) =>
      s.(polls := s.polls[pid := Begun(s.table.rows[m], if m in s.baselines then s.baselines[m] else 0)])
    case FetchPage(pid, size, more) =>
      var p := s.polls[pid];
      var before := Before(From(p.phase.forward, p.phase.at), p.phase.walk);
      s.(polls := s.polls[pid := Paged(p, PageUnder(FeedOf(s.world, AccountOf(p.conn)), before, size, more))])
    case Decide(pid, verdict) =>
      var p := s.polls[pid];
      DecideItem(s, p.conn, p.phase.todo[p.phase.done], verdict).(polls := s.polls[pid := DecidedOne(p)])
    case Conclude(pid) => s.(polls := s.polls[pid := Concluded(s.polls[pid])])
    case Save(pid, account) =>
      var p := s.polls[pid];
      s.(table := SaveCursorOn(s.table, p.conn, account, WorkspaceOf(s.world, AccountOf(p.conn)), p.phase.at),
         baselines := if Matches(s.table, p.conn) then s.baselines[p.conn.member := p.baseline] else s.baselines,
         polls := s.polls - {pid})
    case Fail(pid, cause) => s.(polls := s.polls[pid := s.polls[pid].(phase := Noting(cause))])
    case Note(pid) =>
      s.(table := NoteFailureOn(s.table, s.polls[pid].conn, s.polls[pid].phase.cause), polls := s.polls - {pid})
    case Crash(pid) => s.(polls := s.polls - {pid})
  }

  /** Inboxes may hold anything; the unit starts with no row, no record and no poll. */
  ghost predicate Init(s: State) {
    && s.table == Table(map[], [], 0, 0) && s.baselines == map[] && s.polls == map[]
    && s.world.landed == [] && s.world.skipped == {} && s.world.dropped == map[] && BoxesSound(s.world)
  }

  ghost predicate Run(s: State, events: seq<Event>, end: State)
    decreases |events|
  {
    if events == [] then s == end else Enabled(s, events[0]) && Run(Step(s, events[0]), events[1..], end)
  }

  // ------------------------------------------------------------------
  // The invariant
  // ------------------------------------------------------------------

  ghost predicate BoxesSound(w: World) {
    && (forall a :: a in w.boxes ==> Ascending(w.boxes[a].feed))
    && (forall a, b :: a in w.boxes && b in w.boxes && a != b && w.boxes[a].workspace == w.boxes[b].workspace
          ==> Ids(w.boxes[a].feed) !! Ids(w.boxes[b].feed))
  }

  /** The record is some account's notification under its own key. */
  ghost predicate OwnRecord(w: World, r: Landed) {
    exists a :: a in w.boxes && r.item in w.boxes[a].feed && r == RecordOf(w, a, r.item)
  }

  /** NOTHING LANDS TWICE: no key is in the core more than once. */
  ghost predicate KeysOnce(landed: seq<Landed>) {
    forall i, j :: 0 <= i < j < |landed| ==> landed[i].key != landed[j].key
  }

  ghost predicate CoreSound(w: World) {
    (forall r :: r in w.landed ==> OwnRecord(w, r)) && KeysOnce(w.landed)
  }

  /** Row ids are never shared or reused. */
  ghost predicate RowsDistinct(t: Table) {
    && (forall m :: m in t.rows ==> t.rows[m].member == m && t.rows[m].id < t.nextId)
    && (forall m, n :: m in t.rows && n in t.rows && t.rows[m].id == t.rows[n].id ==> m == n)
  }

  /** NOTHING LOST, for one row: the cursor's numbers are this inbox's, and all it has passed is decided. */
  ghost predicate RowSound(s: State, m: string)
    requires m in s.table.rows
  {
    var row := s.table.rows[m];
    && m in s.baselines
    && Sound(FeedOf(s.world, AccountOf(row)), DecidedItems(s.world, AccountOf(row)), s.baselines[m], row.cursor)
  }

  /** A poll's row is the one on file, or it will never be again. */
  ghost predicate PollCurrent(s: State, p: Poll) {
    && p.conn.id < s.table.nextId
    && (p.conn.member in s.table.rows && s.table.rows[p.conn.member].id == p.conn.id ==>
          p.conn.version <= s.table.rows[p.conn.member].version)
    && (Matches(s.table, p.conn) ==>
          && s.table.rows[p.conn.member] == p.conn
          && (!p.conn.cursor.FirstPoll() ==> p.conn.member in s.baselines && s.baselines[p.conn.member] == p.baseline))
  }

  ghost predicate Inv(s: State) {
    && BoxesSound(s.world)
    && CoreSound(s.world)
    && Rebuilds(s.table)
    && RowsDistinct(s.table)
    && RowsSound(s)
    && PollsCurrent(s)
    && PollsKnow(s)
  }

  /** No member's row claims more than was decided. */
  ghost predicate RowsSound(s: State) {
    forall m :: m in s.table.rows ==> RowSound(s, m)
  }

  ghost predicate PollsCurrent(s: State) {
    forall pid :: pid in s.polls ==> PollCurrent(s, s.polls[pid])
  }

  ghost predicate PollsKnow(s: State) {
    forall pid :: pid in s.polls ==> PollKnows(s.world, s.polls[pid])
  }

  ghost predicate PollKnows(w: World, p: Poll) {
    PollSound(FeedOf(w, AccountOf(p.conn)), DecidedItems(w, AccountOf(p.conn)), p)
  }

  /** The world only ever learns more. */
  ghost predicate Later(w: World, v: World) {
    && w.boxes.Keys == v.boxes.Keys
    && (forall a :: a in w.boxes ==> v.boxes[a].workspace == w.boxes[a].workspace)
    && (forall a :: a in w.boxes ==> Grows(w.boxes[a].feed, v.boxes[a].feed))
    && (forall r :: r in w.landed ==> r in v.landed)
    && w.skipped <= v.skipped
    && w.dropped.Keys <= v.dropped.Keys
  }

  lemma FeedsGrow(w: World, v: World, a: Account)
    requires Later(w, v)
    ensures Grows(FeedOf(w, a), FeedOf(v, a)) && DecidedItems(w, a) <= DecidedItems(v, a)
  {
  }

  lemma RowStaysSound(s: State, t: State, m: string)
    requires Later(s.world, t.world) && m in s.table.rows && RowSound(s, m)
    requires m in t.table.rows && m in t.baselines && t.baselines[m] == s.baselines[m]
    requires AccountOf(t.table.rows[m]) == AccountOf(s.table.rows[m]) && t.table.rows[m].cursor == s.table.rows[m].cursor
    ensures RowSound(t, m)
  {
    var a := AccountOf(s.table.rows[m]);
    FeedsGrow(s.world, t.world, a);
    SoundGrows(FeedOf(s.world, a), FeedOf(t.world, a), DecidedItems(s.world, a), DecidedItems(t.world, a),
               s.baselines[m], s.table.rows[m].cursor);
  }

  lemma PollStillKnows(w: World, v: World, p: Poll)
    requires Later(w, v) && PollKnows(w, p)
    ensures PollKnows(v, p)
  {
    var a := AccountOf(p.conn);
    FeedsGrow(w, v, a);
    PollGrows(FeedOf(w, a), FeedOf(v, a), DecidedItems(w, a), DecidedItems(v, a), p);
  }

  // ------------------------------------------------------------------
  // Writes to the table: every one raises a version or makes a new row
  // ------------------------------------------------------------------

  /** How rows may differ after a step: untouched, rewritten at a higher version, new, or gone. */
  ghost predicate RowsMove(s: State, t: State) {
    && s.table.nextId <= t.table.nextId
    && forall m :: m in t.table.rows ==>
         || (m in s.table.rows && t.table.rows[m] == s.table.rows[m] && BaselineKept(s, t, m))
         || (m in s.table.rows && t.table.rows[m].id == s.table.rows[m].id && s.table.rows[m].version < t.table.rows[m].version)
         || s.table.nextId <= t.table.rows[m].id
  }

  ghost predicate BaselineKept(s: State, t: State, m: string) {
    m in s.baselines ==> m in t.baselines && t.baselines[m] == s.baselines[m]
  }

  lemma StepMovesRows(s: State, e: Event)
    requires Enabled(s, e)
    ensures RowsMove(s, Step(s, e))
  {
  }

  lemma PollStaysCurrent(s: State, t: State, p: Poll)
    requires RowsMove(s, t) && PollCurrent(s, p)
    ensures PollCurrent(t, p)
  {
  }

  /** A poll whose row has moved on can never write again, whatever happens next. */
  lemma StaleStaysStale(s: State, t: State, p: Poll)
    requires RowsMove(s, t) && PollCurrent(s, p) && !Matches(s.table, p.conn)
    ensures !Matches(t.table, p.conn)
  {
  }

  // ------------------------------------------------------------------
  // Each step keeps the invariant
  // ------------------------------------------------------------------

  lemma RowsStaySound(s: State, t: State)
    requires Later(s.world, t.world) && RowsSound(s)
    requires t.table.rows == s.table.rows && t.baselines == s.baselines
    ensures RowsSound(t)
  {
    forall m | m in t.table.rows ensures RowSound(t, m) {
      RowStaysSound(s, t, m);
    }
  }

  lemma PollsStillKnow(s: State, t: State, pid: nat)
    requires Later(s.world, t.world) && PollsKnow(s)
    requires forall i :: i in t.polls && i != pid ==> i in s.polls && t.polls[i] == s.polls[i]
    requires pid in t.polls ==> PollKnows(t.world, t.polls[pid])
    ensures PollsKnow(t)
  {
    forall i | i in t.polls && i != pid ensures PollKnows(t.world, t.polls[i]) {
      PollStillKnows(s.world, t.world, s.polls[i]);
    }
  }

  lemma PollsStayCurrent(s: State, t: State, pid: nat)
    requires RowsMove(s, t) && PollsCurrent(s)
    requires forall i :: i in t.polls && i != pid ==> i in s.polls && t.polls[i] == s.polls[i]
    requires pid in t.polls ==> PollCurrent(t, t.polls[pid])
    ensures PollsCurrent(t)
  {
    forall i | i in t.polls && i != pid ensures PollCurrent(t, t.polls[i]) {
      PollStaysCurrent(s, t, s.polls[i]);
    }
  }

  lemma SameWorld(w: World)
    requires BoxesSound(w)
    ensures Later(w, w)
  {
  }

  lemma OwnRecordStays(w: World, v: World, r: Landed)
    requires Later(w, v) && OwnRecord(w, r)
    ensures OwnRecord(v, r)
  {
    var a :| a in w.boxes && r.item in w.boxes[a].feed && r == RecordOf(w, a, r.item);
    assert w.boxes[a].feed <= v.boxes[a].feed;
    assert a in v.boxes && r.item in v.boxes[a].feed && r == RecordOf(v, a, r.item);
  }

  lemma AppendGrows(feed: Feed, item: Item)
    requires Ascending(feed) && 0 < item.id && forall it :: it in feed ==> it.id < item.id
    ensures Grows(feed, feed + [item]) && Ids(feed + [item]) == Ids(feed) + {item.id}
  {
  }

  lemma ArriveGrows(w: World, a: Account, item: Item)
    requires BoxesSound(w) && a in w.boxes && 0 < item.id
    requires forall it :: it in FeedOf(w, a) ==> it.id < item.id
    ensures Later(w, Arrived(w, a, item))
  {
    AppendGrows(w.boxes[a].feed, item);
  }

  lemma ArriveStaysApart(w: World, a: Account, item: Item)
    requires BoxesSound(w) && a in w.boxes && 0 < item.id && FreshId(w, a, item.id)
    requires forall it :: it in FeedOf(w, a) ==> it.id < item.id
    ensures BoxesSound(Arrived(w, a, item))
  {
    AppendGrows(w.boxes[a].feed, item);
    var v := Arrived(w, a, item);
    var longer := w.boxes[a].feed + [item];
    forall b | b in w.boxes && b != a && w.boxes[b].workspace == w.boxes[a].workspace
      ensures Ids(longer) !! Ids(v.boxes[b].feed)
    {
      assert Ids(w.boxes[a].feed) !! Ids(w.boxes[b].feed);
    }
    forall b, c | b in v.boxes && c in v.boxes && b != c && v.boxes[b].workspace == v.boxes[c].workspace
      ensures Ids(v.boxes[b].feed) !! Ids(v.boxes[c].feed)
    {
      assert b != a && c != a ==> Ids(w.boxes[b].feed) !! Ids(w.boxes[c].feed);
    }
  }

  lemma ArriveKeeps(w: World, a: Account, item: Item)
    requires BoxesSound(w) && CoreSound(w)
    requires a in w.boxes && 0 < item.id && FreshId(w, a, item.id)
    requires forall it :: it in FeedOf(w, a) ==> it.id < item.id
    ensures var v := Arrived(w, a, item); Later(w, v) && BoxesSound(v) && CoreSound(v)
  {
    var v := Arrived(w, a, item);
    ArriveGrows(w, a, item);
    ArriveStaysApart(w, a, item);
    forall r | r in v.landed ensures OwnRecord(v, r) {
      OwnRecordStays(w, v, r);
    }
  }

  /** Two notifications of the world never share a key. */
  lemma KeysTellApart(w: World, a: Account, x: Item, b: Account, y: Item)
    requires BoxesSound(w) && a in w.boxes && b in w.boxes
    requires x in w.boxes[a].feed && y in w.boxes[b].feed
    requires RecordOf(w, a, x).key == RecordOf(w, b, y).key
    ensures a == b && x == y
  {
    KeyInjective(w.boxes[a].workspace, x.id, w.boxes[b].workspace, y.id);
    assert x.id in Ids(w.boxes[a].feed) && y.id in Ids(w.boxes[b].feed);
    assert a == b;
    OneItemPerId(w.boxes[a].feed, x, y);
  }

  lemma OneItemPerId(feed: Feed, x: Item, y: Item)
    requires Ascending(feed) && x in feed && y in feed && x.id == y.id
    ensures x == y
  {
  }

  lemma IngestGrows(w: World, record: Landed)
    requires BoxesSound(w)
    ensures var v := w.(landed := Ingest(w.landed, record)); Later(w, v) && BoxesSound(v)
  {
  }

  lemma IngestOnce(landed: seq<Landed>, record: Landed)
    requires KeysOnce(landed)
    ensures KeysOnce(Ingest(landed, record))
  {
  }

  /** Ingesting leaves the notification in the core as its own record, and no key there twice. */
  lemma IngestKeeps(w: World, a: Account, item: Item)
    requires BoxesSound(w) && CoreSound(w) && a in w.boxes && item in w.boxes[a].feed
    ensures var v := w.(landed := Ingest(w.landed, RecordOf(w, a, item)));
            Later(w, v) && BoxesSound(v) && CoreSound(v) && RecordOf(w, a, item) in v.landed
  {
    var record := RecordOf(w, a, item);
    var v := w.(landed := Ingest(w.landed, record));
    IngestGrows(w, record);
    IngestOnce(w.landed, record);
    if record.key in KeysOf(w.landed) {
      var r :| r in w.landed && r.key == record.key;
      var b :| b in w.boxes && r.item in w.boxes[b].feed && r == RecordOf(w, b, r.item);
      KeysTellApart(w, a, item, b, r.item);
    }
    forall r | r in v.landed ensures OwnRecord(v, r) {
      if r == record {
        assert r == RecordOf(v, a, r.item);
      } else {
        OwnRecordStays(w, v, r);
      }
    }
  }

  // ------------------------------------------------------------------
  // Each step, in turn
  // ------------------------------------------------------------------

  /** A step that moves only the world and one poll's own record of where it is. */
  lemma PollStepKeeps(s: State, t: State, pid: nat)
    requires RowsSound(s) && PollsCurrent(s) && PollsKnow(s) && RowsDistinct(s.table)
    requires Later(s.world, t.world)
    requires t.table.rows == s.table.rows && t.table.nextId == s.table.nextId && t.baselines == s.baselines
    requires pid in t.polls && t.polls == s.polls[pid := t.polls[pid]]
    requires PollCurrent(t, t.polls[pid]) && PollKnows(t.world, t.polls[pid])
    ensures RowsSound(t) && PollsCurrent(t) && PollsKnow(t) && RowsDistinct(t.table)
  {
    RowsStaySound(s, t);
    PollsStillKnow(s, t, pid);
    PollsStayCurrent(s, t, pid);
  }

  lemma StepArrive(s: State, e: Event)
    requires Inv(s) && Enabled(s, e) && e.Arrive?
    ensures Inv(Step(s, e))
  {
    var t := Step(s, e);
    ArriveKeeps(s.world, e.account, e.item);
    RowsStaySound(s, t);
    forall i | i in t.polls ensures PollKnows(t.world, t.polls[i]) {
      PollStillKnows(s.world, t.world, s.polls[i]);
    }
    StepMovesRows(s, e);
    forall i | i in t.polls ensures PollCurrent(t, t.polls[i]) {
      PollStaysCurrent(s, t, s.polls[i]);
    }
  }

  lemma StepBegin(s: State, e: Event)
    requires Inv(s) && Enabled(s, e) && e.Begin?
    ensures Inv(Step(s, e))
  {
    var t := Step(s, e);
    var row := s.table.rows[e.member];
    assert RowSound(s, e.member);
    SameWorld(s.world);
    BegunSound(FeedOf(s.world, AccountOf(row)), DecidedItems(s.world, AccountOf(row)), row, s.baselines[e.member]);
    PollStepKeeps(s, t, e.pid);
  }

  lemma StepFetch(s: State, e: Event)
    requires Inv(s) && Enabled(s, e) && e.FetchPage?
    ensures Inv(Step(s, e))
  {
    var t, p := Step(s, e), s.polls[e.pid];
    SameWorld(s.world);
    assert PollKnows(s.world, p) && PollCurrent(s, p);
    PagedSound(FeedOf(s.world, AccountOf(p.conn)), DecidedItems(s.world, AccountOf(p.conn)), p, e.size, e.more);
    PollStepKeeps(s, t, e.pid);
  }

  lemma StepConclude(s: State, e: Event)
    requires Inv(s) && Enabled(s, e) && e.Conclude?
    ensures Inv(Step(s, e))
  {
    var t, p := Step(s, e), s.polls[e.pid];
    SameWorld(s.world);
    assert PollKnows(s.world, p) && PollCurrent(s, p);
    ConcludedSound(FeedOf(s.world, AccountOf(p.conn)), DecidedItems(s.world, AccountOf(p.conn)), p);
    PollStepKeeps(s, t, e.pid);
  }

  lemma StepFail(s: State, e: Event)
    requires Inv(s) && Enabled(s, e) && e.Fail?
    ensures Inv(Step(s, e))
  {
    var t, p := Step(s, e), s.polls[e.pid];
    SameWorld(s.world);
    assert PollKnows(s.world, p) && PollCurrent(s, p);
    PollStepKeeps(s, t, e.pid);
  }

  /** Deciding about one item: the world afterwards, and that this item is decided in it. */
  lemma DecideItemKeeps(s: State, conn: Row, item: Item, verdict: Verdict)
    requires BoxesSound(s.world) && CoreSound(s.world) && Rebuilds(s.table)
    requires item in FeedOf(s.world, AccountOf(conn))
    ensures var t := DecideItem(s, conn, item, verdict);
            && Later(s.world, t.world) && BoxesSound(t.world) && CoreSound(t.world) && Rebuilds(t.table)
            && item in DecidedItems(t.world, AccountOf(conn))
            && t == s.(world := t.world, table := s.table.(ledger := t.table.ledger))
  {
    var a, t := AccountOf(conn), DecideItem(s, conn, item, verdict);
    SameWorld(s.world);
    if Directed(item) && verdict == Taken {
      IngestKeeps(s.world, a, item);
      assert RecordOf(t.world, a, item) == RecordOf(s.world, a, item);
    } else {
      assert Later(s.world, t.world);
      forall r | r in t.world.landed ensures OwnRecord(t.world, r) {
        OwnRecordStays(s.world, t.world, r);
      }
      NoteDropRebuilds(s.table, conn, item.id, if verdict == Unrepresentable then "unrepresentable" else "refused_by_the_core");
    }
  }

  /** What a landing holds is from the inbox it polls. */
  lemma TodoIsOfTheFeed(feed: Feed, decided: set<Item>, p: Poll)
    requires PollSound(feed, decided, p) && p.phase.Landing? && p.phase.done < |p.phase.todo|
    ensures p.phase.todo[p.phase.done] in feed
  {
    assert p.phase.todo[p.phase.done] in multiset(p.phase.result.items);
  }

  lemma DecidedPollKnows(w: World, v: World, p: Poll)
    requires Later(w, v) && PollKnows(w, p) && p.phase.Landing? && p.phase.done < |p.phase.todo|
    requires p.phase.todo[p.phase.done] in DecidedItems(v, AccountOf(p.conn))
    ensures PollKnows(v, DecidedOne(p))
  {
    PollStillKnows(w, v, p);
    DecidedOneSound(FeedOf(v, AccountOf(p.conn)), DecidedItems(v, AccountOf(p.conn)), p);
  }

  lemma StepDecide(s: State, e: Event)
    requires Inv(s) && Enabled(s, e) && e.Decide?
    ensures Inv(Step(s, e))
  {
    var p := s.polls[e.pid];
    var a, item := AccountOf(p.conn), p.phase.todo[p.phase.done];
    var u := DecideItem(s, p.conn, item, e.verdict);
    assert PollKnows(s.world, p) && PollCurrent(s, p);
    TodoIsOfTheFeed(FeedOf(s.world, a), DecidedItems(s.world, a), p);
    DecideItemKeeps(s, p.conn, item, e.verdict);
    DecidedPollKnows(s.world, u.world, p);
    LandedPollKeeps(s, u, e.pid, DecidedOne(p));
  }

  lemma LandedPollKeeps(s: State, u: State, pid: nat, q: Poll)
    requires Inv(s) && pid in s.polls && q == s.polls[pid].(phase := q.phase)
    requires u == s.(world := u.world, table := s.table.(ledger := u.table.ledger))
    requires Later(s.world, u.world) && BoxesSound(u.world) && CoreSound(u.world) && Rebuilds(u.table)
    requires PollKnows(u.world, q)
    ensures Inv(u.(polls := s.polls[pid := q]))
  {
    var t := u.(polls := s.polls[pid := q]);
    assert PollCurrent(s, s.polls[pid]);
    assert t.table.rows == s.table.rows && t.table.nextId == s.table.nextId && t.baselines == s.baselines;
    assert PollCurrent(t, q);
    PollStepKeeps(s, t, pid);
  }

  /** A poll that ends, by writing or not: every other poll is as it was. */
  lemma PollEndKeeps(s: State, e: Event)
    requires Inv(s) && Enabled(s, e) && (e.Save? || e.Note? || e.Crash?)
    ensures var t := Step(s, e); PollsCurrent(t) && PollsKnow(t)
  {
    var t := Step(s, e);
    StepMovesRows(s, e);
    PollsStayCurrent(s, t, e.pid);
    SameWorld(s.world);
    PollsStillKnow(s, t, e.pid);
  }

  lemma SaveRowsSound(s: State, e: Event)
    requires BoxesSound(s.world) && RowsSound(s) && Enabled(s, e) && e.Save?
    requires PollKnows(s.world, s.polls[e.pid]) && PollCurrent(s, s.polls[e.pid])
    ensures RowsSound(Step(s, e))
  {
    var t, p := Step(s, e), s.polls[e.pid];
    SameWorld(s.world);
    forall m | m in t.table.rows ensures RowSound(t, m) {
      if !(Matches(s.table, p.conn) && m == p.conn.member) {
        RowStaysSound(s, t, m);
      }
    }
  }

  lemma SaveRowsDistinct(t: Table, conn: Row, account: string, workspace: string, at: Cursor)
    requires RowsDistinct(t)
    ensures RowsDistinct(SaveCursorOn(t, conn, account, workspace, at))
  {
  }

  lemma StepSave(s: State, e: Event)
    requires Inv(s) && Enabled(s, e) && e.Save?
    ensures Inv(Step(s, e))
  {
    var p := s.polls[e.pid];
    assert PollKnows(s.world, p) && PollCurrent(s, p);
    PollEndKeeps(s, e);
    SaveCursorRebuilds(s.table, p.conn, e.accountLabel, WorkspaceOf(s.world, AccountOf(p.conn)), p.phase.at);
    SaveRowsDistinct(s.table, p.conn, e.accountLabel, WorkspaceOf(s.world, AccountOf(p.conn)), p.phase.at);
    SaveRowsSound(s, e);
  }

  lemma NoteRowsSound(s: State, e: Event)
    requires BoxesSound(s.world) && RowsSound(s) && Enabled(s, e) && e.Note?
    ensures RowsSound(Step(s, e))
  {
    var t := Step(s, e);
    SameWorld(s.world);
    forall m | m in t.table.rows ensures RowSound(t, m) {
      RowStaysSound(s, t, m);
    }
  }

  lemma NoteRowsDistinct(t: Table, conn: Row, cause: Error)
    requires RowsDistinct(t)
    ensures RowsDistinct(NoteFailureOn(t, conn, cause))
  {
  }

  lemma StepNote(s: State, e: Event)
    requires Inv(s) && Enabled(s, e) && e.Note?
    ensures Inv(Step(s, e))
  {
    NoteRowsDistinct(s.table, s.polls[e.pid].conn, s.polls[e.pid].phase.cause);
    var p := s.polls[e.pid];
    assert PollCurrent(s, p);
    PollEndKeeps(s, e);
    NoteFailureRebuilds(s.table, p.conn, p.phase.cause);
    NoteRowsSound(s, e);
  }

  lemma StepCrash(s: State, e: Event)
    requires Inv(s) && Enabled(s, e) && e.Crash?
    ensures Inv(Step(s, e))
  {
  }

  lemma MemberWriteKeepsPolls(s: State, e: Event)
    requires Inv(s) && Enabled(s, e) && (e.Connect? || e.Disconnect?)
    ensures var t := Step(s, e); PollsCurrent(t) && PollsKnow(t)
  {
    var t := Step(s, e);
    StepMovesRows(s, e);
    forall i | i in t.polls ensures PollCurrent(t, t.polls[i]) {
      PollStaysCurrent(s, t, s.polls[i]);
    }
  }

  /** A reconnect keeps a cursor exactly where the inbox is still the same one. */
  lemma ConnectRowsSound(s: State, e: Event)
    requires BoxesSound(s.world) && RowsSound(s) && e.Connect?
    ensures RowsSound(Step(s, e))
  {
    var t := Step(s, e);
    SameWorld(s.world);
    forall m | m in t.table.rows ensures RowSound(t, m) {
      if m != e.member || t.table.rows[m].cursor != UNREAD_ACCOUNT {
        RowStaysSound(s, t, m);
      }
    }
  }

  lemma ConnectRowsDistinct(t: Table, member: string, baseUrl: string)
    requires RowsDistinct(t)
    ensures RowsDistinct(ConnectOn(t, member, baseUrl))
  {
  }

  lemma StepConnect(s: State, e: Event)
    requires Inv(s) && Enabled(s, e) && e.Connect?
    ensures Inv(Step(s, e))
  {
    ConnectRowsDistinct(s.table, e.member, e.baseUrl);
    MemberWriteKeepsPolls(s, e);
    ConnectRebuilds(s.table, e.member, e.baseUrl);
    ConnectRowsSound(s, e);
  }

  lemma StepDisconnect(s: State, e: Event)
    requires Inv(s) && Enabled(s, e) && e.Disconnect?
    ensures Inv(Step(s, e))
  {
    var t := Step(s, e);
    MemberWriteKeepsPolls(s, e);
    SameWorld(s.world);
    DisconnectRebuilds(s.table, e.member);
    forall m | m in t.table.rows ensures RowSound(t, m) {
      RowStaysSound(s, t, m);
    }
  }

  lemma StepKeepsInv(s: State, e: Event)
    requires Inv(s) && Enabled(s, e)
    ensures Inv(Step(s, e))
  {
    match e
    case Arrive(_, _) => StepArrive(s, e);
    case Connect(_, _) => StepConnect(s, e);
    case Disconnect(_) => StepDisconnect(s, e);
    case Begin(_, _) => StepBegin(s, e);
    case FetchPage(_, _, _) => StepFetch(s, e);
    case Decide(_, _) => StepDecide(s, e);
    case Conclude(_) => StepConclude(s, e);
    case Save(_, _) => StepSave(s, e);
    case Fail(_, _) => StepFail(s, e);
    case Note(_) => StepNote(s, e);
    case Crash(_) => StepCrash(s, e);
  }
}
