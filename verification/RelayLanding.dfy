/**
 Landing what a walk brought (extensions/relay-probe/poll.go): oldest first, one
 record at a time, separating a record that will never land from a failure that
 must stop the tick.
 */
module RelayLanding {
  import opened Wrappers
  import opened RelayErrors
  import opened RelayFeed
  import opened RelayRecord
  import opened RelayTable
  import opened RelayPollSteps
  import opened RelayStore

  /** Who is who at the provider, and whether looking it up fails. */
  datatype Directory = Directory(users: map<string, ProviderUser>, fault: Option<Error>)

  function SenderOf(directory: Directory, item: Item): ProviderUser {
    if item.senderId != "" && item.senderId in directory.users then directory.users[item.senderId] else UNKNOWN_SENDER
  }

  /**
   What landing writes to: the records the core holds, the keys its breadcrumbs
   say it skipped, and the unit's own table. And what is still to come: the core's
   answers, and how each drop's own write ends. A script that runs out goes well.
   */
  datatype Desk = Desk(landed: seq<Landed>, skipped: set<string>, table: Table, answers: seq<Answer>, writes: seq<Option<Error>>)

  function NextAnswer(d: Desk): Answer { if d.answers == [] then Accepted else d.answers[0] }

  function LaterAnswers(d: Desk): seq<Answer> { if d.answers == [] then [] else d.answers[1..] }

  function NextWrite(d: Desk): Option<Error> { if d.writes == [] then None else d.writes[0] }

  function LaterWrites(d: Desk): seq<Option<Error>> { if d.writes == [] then [] else d.writes[1..] }

  /** A drop is recorded, or its write fails and the tick with it. */
  function DropOn(d: Desk, conn: Row, item: Item, reason: string): (Desk, Option<Error>) {
    var after := d.(writes := LaterWrites(d));
    match NextWrite(d)
    case Some(error) => (after, Some(error))
    case None => (after.(table := NoteDropOn(d.table, conn, item.id, reason)), None)
  }

  function LandOneOn(d: Desk, conn: Row, directory: Directory, member: ProviderUser, item: Item): (Desk, Option<Error>) {
    match RecordFor(item, SenderOf(directory, item), member, member.workspaceId)
    case None => DropOn(d, conn, item, "unrepresentable")
    case Some(record) =>
      var after := d.(answers := LaterAnswers(d));
      match NextAnswer(d)
      case Accepted => (after.(landed := Ingest(d.landed, Landed(record.key, conn.member, record.raw))), None)
      case Skipped => (after.(skipped := d.skipped + {record.key}), None)
      case Refused(error) => if ErrInvalid in error then DropOn(after, conn, item, "refused_by_the_core") else (after, Some(error))
  }

  /** Landing in order, up to the first failure: where the desk ends, how many were decided, and the failure. */
  function LandAllOn(d: Desk, conn: Row, directory: Directory, member: ProviderUser, todo: seq<Item>)
    : (Desk, nat, Option<Error>)
    decreases |todo|
  {
    if todo == [] then (d, 0, None)
    else
      var (after, error) := if Directed(todo[0]) then LandOneOn(d, conn, directory, member, todo[0]) else (d, None);
      if error.Some? then (after, 0, error)
      else
        var (end, done, failure) := LandAllOn(after, conn, directory, member, todo[1..]);
        (end, done + 1, failure)
  }

  /** Some directed item names its sender: only then is anybody looked up. */
  predicate AsksAnyone(items: seq<Item>) {
    exists i :: 0 <= i < |items| && Directed(items[i]) && items[i].senderId != ""
  }

  /** One walk's items: the senders are looked up once, then they land in order; the highest id decided about. */
  function LandWalkOn(d: Desk, users: Directory, conn: Row, member: ProviderUser, items: seq<Item>)
    : (Desk, Result<int, Error>)
  {
    if users.fault.Some? && AsksAnyone(SortById(items)) then (d, Err(users.fault.value))
    else
      var (end, _, failure) := LandAllOn(d, conn, users, member, SortById(items));
      (end, if failure.Some? then Err(failure.value) else Ok(HighestOf(SortById(items))))
  }

  // ------------------------------------------------------------------
  // What landing decides
  // ------------------------------------------------------------------

  /** Filtered, dropped on this connection's ledger, or held or knowingly skipped by the core under its key. */
  predicate DecidedAt(d: Desk, conn: Row, workspace: string, item: Item) {
    || !Directed(item)
    || DroppedIn(d.table.ledger, conn.id, item.id)
    || Key(workspace, item.id) in KeysOf(d.landed)
    || Key(workspace, item.id) in d.skipped
  }

  /** Nothing the desk holds is ever taken back, and rows are not landing's to touch. */
  ghost predicate DeskGrows(d: Desk, e: Desk) {
    d.landed <= e.landed && d.skipped <= e.skipped && d.table.ledger <= e.table.ledger && e.table == d.table.(ledger := e.table.ledger)
  }

  lemma LandOneDecides(d: Desk, conn: Row, directory: Directory, member: ProviderUser, item: Item)
    ensures var (e, error) := LandOneOn(d, conn, directory, member, item);
            && DeskGrows(d, e)
            && (error.None? ==> DecidedAt(e, conn, member.workspaceId, item))
            && (error.Some? ==> e == d.(answers := e.answers, writes := e.writes))
  {
    var e := LandOneOn(d, conn, directory, member, item).0;
    assert e.table.ledger != d.table.ledger ==> e.table.ledger[|e.table.ledger| - 1].detail.Some?;
  }

  /** Whatever is new on the desk came from one of these items. */
  ghost predicate NewOnlyFrom(d: Desk, e: Desk, conn: Row, workspace: string, items: seq<Item>)
    requires DeskGrows(d, e)
  {
    && (forall r :: r in e.landed && r !in d.landed ==>
          r.item in items && Directed(r.item) && r == Landed(Key(workspace, r.item.id), conn.member, r.item))
    && (forall key :: key in e.skipped && key !in d.skipped ==> Skips(items, workspace, key))
    && (forall i :: |d.table.ledger| <= i < |e.table.ledger| ==>
          && e.table.ledger[i].id == conn.id && e.table.ledger[i].detail.Some?
          && Names(items, e.table.ledger[i].detail.value.notification))
  }

  predicate Names(items: seq<Item>, id: int) { exists item :: item in items && item.id == id }

  predicate Skips(items: seq<Item>, workspace: string, key: string) {
    exists item :: item in items && Directed(item) && key == Key(workspace, item.id)
  }

  lemma NewFromOne(d: Desk, conn: Row, directory: Directory, member: ProviderUser, item: Item)
    requires Directed(item)
    ensures var e := LandOneOn(d, conn, directory, member, item).0;
            DeskGrows(d, e) && NewOnlyFrom(d, e, conn, member.workspaceId, [item])
  {
  }

  /** What landing `todo` leaves: how far it got, that all up to there is decided, and that nothing else is new. */
  ghost predicate LandingAnswer(d: Desk, conn: Row, workspace: string, todo: seq<Item>,
                                e: Desk, done: nat, error: Option<Error>)
  {
    && DeskGrows(d, e)
    && done <= |todo| && (error.None? <==> done == |todo|)
    && (forall i :: 0 <= i < done ==> DecidedAt(e, conn, workspace, todo[i]))
    && NewOnlyFrom(d, e, conn, workspace, todo[..done])
  }

  lemma LandingAnswerAfterOne(d: Desk, mid: Desk, conn: Row, workspace: string, todo: seq<Item>,
                              e: Desk, done: nat, error: Option<Error>)
    requires todo != [] && LandingAnswer(mid, conn, workspace, todo[1..], e, done, error)
    requires DeskGrows(d, mid) && NewOnlyFrom(d, mid, conn, workspace, [todo[0]])
    requires DecidedAt(mid, conn, workspace, todo[0])
    ensures LandingAnswer(d, conn, workspace, todo, e, done + 1, error)
  {
  }

  /**
   Landing decides a prefix of what it was given: all of it when nothing failed,
   and exactly the items before the one that failed otherwise; nothing from that
   item on reached the core or the ledger.
   */
  lemma {:induction false} LandAllDecides(d: Desk, conn: Row, directory: Directory, member: ProviderUser, todo: seq<Item>)
    ensures var (e, done, error) := LandAllOn(d, conn, directory, member, todo);
            LandingAnswer(d, conn, member.workspaceId, todo, e, done, error)
    decreases |todo|
  {
    if todo != [] {
      var (mid, error) := if Directed(todo[0]) then LandOneOn(d, conn, directory, member, todo[0]) else (d, None);
      LandOneDecides(d, conn, directory, member, todo[0]);
      if Directed(todo[0]) {
        NewFromOne(d, conn, directory, member, todo[0]);
      }
      if error.None? {
        LandAllDecides(mid, conn, directory, member, todo[1..]);
        var (e, done, failure) := LandAllOn(mid, conn, directory, member, todo[1..]);
        LandingAnswerAfterOne(d, mid, conn, member.workspaceId, todo, e, done, failure);
      }
    }
  }

  // ------------------------------------------------------------------
  // The loops themselves
  // ------------------------------------------------------------------

  /** What the unit runs in: the core's ingest port, and the unit's own table. */
  class Runtime {
    var landed: seq<Landed>
    var skipped: set<string>
    var answers: seq<Answer>
    var writes: seq<Option<Error>>
    const table: ConnectionTable

    constructor (table: ConnectionTable, landed: seq<Landed>, skipped: set<string>, answers: seq<Answer>, writes: seq<Option<Error>>)
      ensures this.table == table && View() == Desk(landed, skipped, table.State(), answers, writes)
    {
      this.table, this.landed, this.skipped, this.answers, this.writes := table, landed, skipped, answers, writes;
    }

    function View(): Desk
      reads this, table
    {
      Desk(landed, skipped, table.State(), answers, writes)
    }

    /** The core's port: idempotent on the key, and free to skip or to refuse. */
    method Ingest(member: string, record: Record) returns (answer: Answer)
      modifies this
      ensures answer == NextAnswer(old(View())) && answers == LaterAnswers(old(View())) && writes == old(writes)
      ensures landed == if answer.Accepted? then RelayRecord.Ingest(old(landed), Landed(record.key, member, record.raw))
                        else old(landed)
      ensures skipped == if answer.Skipped? then old(skipped) + {record.key} else old(skipped)
    {
      answer := if answers == [] then Accepted else answers[0];
      answers := if answers == [] then [] else answers[1..];
      if answer.Accepted? && record.key !in KeysOf(landed) {
        landed := landed + [Landed(record.key, member, record.raw)];
      }
      if answer.Skipped? {
        skipped := skipped + {record.key};
      }
    }

    /** One drop, in a transaction of its own. */
    method NoteDrop(conn: Row, item: Item, reason: string) returns (error: Option<Error>)
      modifies this, table
      ensures (View(), error) == DropOn(old(View()), conn, item, reason)
    {
      error := if writes == [] then None else writes[0];
      writes := if writes == [] then [] else writes[1..];
      if error.None? {
        table.NoteDrop(conn, item.id, reason);
      }
    }
  }

  /** Which senders one walk's directed items name, each once. */
  method SendersNamed(items: seq<Item>) returns (ids: seq<string>)
    ensures forall i, j :: 0 <= i < j < |ids| ==> ids[i] != ids[j]
    ensures forall id :: id in ids <==> id != "" && exists item :: item in items && Directed(item) && item.senderId == id
  {
    ids := [];
    for i := 0 to |items|
      invariant forall k, l :: 0 <= k < l < |ids| ==> ids[k] != ids[l]
      invariant forall id :: id in ids ==> id != "" && exists item :: item in items && Directed(item) && item.senderId == id
      invariant forall k :: 0 <= k < i && Directed(items[k]) && items[k].senderId != "" ==> items[k].senderId in ids
    {
      var item := items[i];
      if Directed(item) && item.senderId != "" && item.senderId !in ids {
        ids := ids + [item.senderId];
      }
    }
  }

  /** Every distinct sender in one call, and no call when there is none to look up. */
  method ResolveSenders(directory: Directory, items: seq<Item>) returns (senders: Result<map<string, ProviderUser>, Error>)
    ensures directory.fault.Some? && AsksAnyone(items) ==> senders == Err(directory.fault.value)
    ensures directory.fault.None? || !AsksAnyone(items) ==>
              && senders.Ok?
              && forall item :: item in items && Directed(item) ==>
                   SenderOf(Directory(senders.value, None), item) == SenderOf(directory, item)
  {
    var ids := SendersNamed(items);
    if ids == [] {
      assert AsksAnyone(items) ==> exists item :: item in items && Directed(item) && item.senderId in ids;
      return Ok(map[]);
    }
    assert AsksAnyone(items) by {
      assert ids[0] in ids;
    }
    if directory.fault.Some? {
      return Err(directory.fault.value);
    }
    senders := Ok(map id | id in ids && id in directory.users :: directory.users[id]);
  }

  method LandOne(rt: Runtime, item: Item, sender: ProviderUser, conn: Row, member: ProviderUser) returns (error: Option<Error>)
    modifies rt, rt.table
    ensures forall directory: Directory :: SenderOf(directory, item) == sender ==>
              (rt.View(), error) == LandOneOn(old(rt.View()), conn, directory, member, item)
    ensures sender.email != "" && NextAnswer(old(rt.View())).Refused? && ErrInvalid !in NextAnswer(old(rt.View())).error ==>
              error == Some(NextAnswer(old(rt.View())).error) && rt.table.State() == old(rt.table.State())
  {
    var built := RecordFor(item, sender, member, member.workspaceId);
    if built.None? {
      error := rt.NoteDrop(conn, item, "unrepresentable");
      return;
    }
    var answer := rt.Ingest(conn.member, built.value);
    if answer.Refused? {
      if ErrInvalid in answer.error {
        error := rt.NoteDrop(conn, item, "refused_by_the_core");
        return;
      }
      return Some(answer.error);
    }
    error := None;
  }

  /** The loop, over items already in the order they land. */
  method LandInOrder(rt: Runtime, senders: map<string, ProviderUser>, todo: seq<Item>, conn: Row, member: ProviderUser,
                     ghost directory: Directory)
    returns (processedTo: int, error: Option<Error>)
    requires forall item :: item in todo && Directed(item) ==>
               SenderOf(Directory(senders, None), item) == SenderOf(directory, item)
    modifies rt, rt.table
    ensures var (end, done, failure) := LandAllOn(old(rt.View()), conn, directory, member, todo);
            rt.View() == end && error == failure && done <= |todo| && processedTo == HighestOf(todo[..done])
  {
    ghost var (end, done, failure) := LandAllOn(rt.View(), conn, directory, member, todo);
    LandAllDecides(rt.View(), conn, directory, member, todo);
    processedTo := 0;
    for i := 0 to |todo|
      invariant i <= done <= |todo| && processedTo == HighestOf(todo[..i])
      invariant LandAllOn(rt.View(), conn, directory, member, todo[i..]) == (end, done - i, failure)
    {
      var item := todo[i];
      LandAllStep(rt.View(), conn, directory, member, todo, i);
      if Directed(item) {
        error := LandOne(rt, item, SenderOf(Directory(senders, None), item), conn, member);
        if error.Some? {
          return;
        }
      }
      processedTo := item.id;
    }
    error := None;
  }

  lemma LandAllStep(d: Desk, conn: Row, directory: Directory, member: ProviderUser, todo: seq<Item>, i: nat)
    requires i < |todo|
    ensures var (after, error) := if Directed(todo[i]) then LandOneOn(d, conn, directory, member, todo[i]) else (d, None);
            var rest := LandAllOn(after, conn, directory, member, todo[i + 1..]);
            LandAllOn(d, conn, directory, member, todo[i..])
              == if error.Some? then (after, 0, error) else (rest.0, rest.1 + 1, rest.2)
  {
  }

  method LandAll(rt: Runtime, users: Directory, items: seq<Item>, conn: Row, member: ProviderUser)
    returns (landed: Result<int, Error>)
    modifies rt, rt.table
    ensures (rt.View(), landed) == LandWalkOn(old(rt.View()), users, conn, member, items)
  {
    var todo := SortById(items);
    var senders := ResolveSenders(users, todo);
    if senders.Err? {
      return Err(senders.error);
    }
    LandAllDecides(rt.View(), conn, users, member, todo);
    var processedTo, failed := LandInOrder(rt, senders.value, todo, conn, member, users);
    if failed.Some? {
      return Err(failed.value);
    }
    assert todo[..|todo|] == todo;
    landed := Ok(processedTo);
  }
}
