/**
 The notes unit's writes and what each records (extensions/notes/note.go,
 filing.go, withdraw.go, heartbeat.go, ledger.go).

 Each operation is one transaction of one workspace: it takes effect whole or,
 refused, not at all. What the database and the core supply (a fresh id, the
 time, the activity's id) comes with the operation.
 */
module NotesLedger {
  import opened Wrappers
  import opened Text
  import opened NotesRows

  const MAX_NOTE_BODY := 500
  const MAX_NOTES_PER_READ := 200
  const KEPT_HEARTBEATS := 10

  /** One side of a recorded change: the row as answered, its time in whole seconds. */
  datatype Image = Image(id: nat, kind: Kind, body: string, author: Option<Author>, filed: Option<nat>, seconds: nat)

  datatype Action = Create | Update | Erase

  datatype Verb = NoteAdded | NoteFiled | NoteRemoved | FilingWithdrawn

  datatype Entry = Entry(action: Action, verb: Verb, id: nat, before: Option<Image>, after: Option<Image>)

  datatype State = State(table: Table, ledger: seq<Entry>)

  datatype Caller = Caller(userId: string, isAgent: bool)

  function ImageOf(row: Row): Image {
    Image(row.id, row.kind, row.body, row.author, row.filed, row.created / 1_000_000)
  }

  // ------------------------------------------------------------------
  // The operations
  // ------------------------------------------------------------------

  /** What a note's text must be, and what is kept of it. */
  function NoteBody(raw: string): Option<string> {
    var body := Trim(raw, GoSpace);
    if body == "" || |body| > MAX_NOTE_BODY then None else Some(body)
  }

  function CallerAuthor(caller: Caller): Option<Author> {
    if caller.userId == "" then None else Some(Author(caller.userId, caller.isAgent))
  }

  /** The entry of a row that now exists, or of one that no longer does. */
  function Created(verb: Verb, row: Row): Entry { Entry(Create, verb, row.id, None, Some(ImageOf(row))) }

  function Erased(row: Row): Entry { Entry(Erase, NoteRemoved, row.id, Some(ImageOf(row)), None) }

  /** The entry of one withdrawal; its before-image is put together from the row left and the activity. */
  function Withdrawn(after: Row, activity: nat): Entry {
    Entry(Update, FilingWithdrawn, after.id,
          Some(ImageOf(after.(filed := Some(activity)))), Some(ImageOf(after)))
  }

  function InsertOn(s: State, verb: Verb, row: Row): State {
    State(s.table[row.id := row], s.ledger + [Created(verb, row)])
  }

  function RemoveOn(s: State, id: nat): State {
    if id in s.table then State(s.table - {id}, s.ledger + [Erased(s.table[id])]) else s
  }

  /** The notes filed to one activity. */
  function FiledTo(t: Table, activity: nat): set<nat> {
    set id | id in t && t[id].filed == Some(activity)
  }

  function Cleared(t: Table, ids: set<nat>): Table {
    map id | id in t :: if id in ids then t[id].(filed := None) else t[id]
  }

  /** The rows of `order`, one withdrawal each. */
  function Withdrawals(t: Table, order: seq<nat>, activity: nat): seq<Entry>
    requires forall id :: id in order ==> id in t
  {
    if order == [] then []
    else Withdrawals(t, order[..|order| - 1], activity) + [Withdrawn(t[order[|order| - 1]], activity)]
  }

  ghost predicate Once(order: seq<nat>) {
    forall i, j :: 0 <= i < j < |order| ==> order[i] != order[j]
  }

  /** `order` names each of `ids` once. */
  ghost predicate Orders(order: seq<nat>, ids: set<nat>) {
    && (forall id :: id in order <==> id in ids)
    && Once(order)
  }

  function WithdrawOn(s: State, activity: nat, order: seq<nat>): State
    requires forall id :: id in order ==> id in s.table
  {
    var table := Cleared(s.table, FiledTo(s.table, activity));
    State(table, s.ledger + Withdrawals(table, order, activity))
  }

  function Heartbeats(t: Table): set<Row> {
    set id | id in t && t[id].kind.Heartbeat? :: t[id]
  }

  function Notes(t: Table): set<Row> {
    set id | id in t && t[id].kind.Note? :: t[id]
  }

  /** The tick's row in, and every tick but the newest ten out. */
  function Ticked(t: Table, tick: Row): Table {
    var written := t[tick.id := tick];
    var kept := Newest(Heartbeats(written), KEPT_HEARTBEATS);
    map id | id in written && (written[id].kind.Note? || written[id] in kept) :: written[id]
  }

  function HeartbeatOn(s: State, tick: Row): State {
    s.(table := Ticked(s.table, tick))
  }

  /** What one read answers, newest first and bounded. */
  function Listed(t: Table): set<Row> {
    Newest(t.Values, MAX_NOTES_PER_READ)
  }

  // ------------------------------------------------------------------
  // Runs
  // ------------------------------------------------------------------

  /** One operation: a request, with the id and time the database gives it and what the core answers. */
  datatype Event =
    | Add(caller: Caller, raw: string, id: nat, now: nat)
    | File(caller: Caller, raw: string, subject: bool, activity: Option<nat>, id: nat, now: nat)
    | Remove(requested: Option<nat>)
    | Withdraw(activity: Option<nat>, order: seq<nat>)
    | Tick(text: string, id: nat, now: nat)

  /** A new row's id is not in use, and a withdrawal's rows come in some order. */
  ghost predicate Enabled(s: State, e: Event) {
    match e
    case Add(_, _, id, _) => id !in s.table
    case File(_, _, _, _, id, _) => id !in s.table
    case Remove(_) => true
    case Withdraw(activity, order) => activity.Some? ==> Orders(order, FiledTo(s.table, activity.value))
    case Tick(_, id, _) => id !in s.table
  }

  function NoteRow(e: Event, body: string): Row
    requires e.Add? || e.File?
  {
    Row(e.id, Note, body, CallerAuthor(e.caller), if e.File? then e.activity else None, e.now)
  }

  ghost function Step(s: State, e: Event): State
    requires Enabled(s, e)
  {
    match e
    case Add(_, raw, _, _) =>
      (match NoteBody(raw)
       case Some(body) => InsertOn(s, NoteAdded, NoteRow(e, body))
       case None => s)
    case File(_, raw, subject, activity, _, _) =>
      (match NoteBody(raw)
       case Some(body) => if subject && activity.Some? then InsertOn(s, NoteFiled, NoteRow(e, body)) else s
       case None => s)
    case Remove(requested) => if requested.Some? then RemoveOn(s, requested.value) else s
    case Withdraw(activity, order) => if activity.Some? then WithdrawOn(s, activity.value, order) else s
    case Tick(text, id, now) => HeartbeatOn(s, Row(id, Heartbeat, text, None, None, now))
  }

  /** A sequence of states, each one operation after the last, from an empty notepad. */
  ghost predicate Run(states: seq<State>, events: seq<Event>) {
    && |states| == |events| + 1
    && states[0] == State(map[], [])
    && forall i :: 0 <= i < |events| ==> Enabled(states[i], events[i]) && states[i + 1] == Step(states[i], events[i])
  }

  // ------------------------------------------------------------------
  // Replay
  // ------------------------------------------------------------------

  predicate OfANote(e: Entry) {
    (e.after.Some? && e.after.value.kind.Note?) || (e.after.None? && e.before.Some? && e.before.value.kind.Note?)
  }

  function Apply(images: map<nat, Image>, e: Entry): map<nat, Image> {
    if !OfANote(e) then images
    else match e.after
      case Some(image) => images[e.id := image]
      case None => images - {e.id}
  }

  /** What the ledger alone says the human notes are. */
  function Replay(ledger: seq<Entry>): map<nat, Image> {
    if ledger == [] then map[] else Apply(Replay(ledger[..|ledger| - 1]), ledger[|ledger| - 1])
  }

  /** What the human notes are. */
  function Images(t: Table): map<nat, Image> {
    map id | id in t && t[id].kind.Note? :: ImageOf(t[id])
  }

  function At(images: map<nat, Image>, id: nat): Option<Image> {
    if id in images then Some(images[id]) else None
  }

  /** Each entry about a human note starts from what the entries before it left. */
  ghost predicate Truthful(ledger: seq<Entry>) {
    forall i :: 0 <= i < |ledger| && OfANote(ledger[i]) ==> ledger[i].before == At(Replay(ledger[..i]), ledger[i].id)
  }

  /** The notepad's invariant. */
  ghost predicate Inv(s: State) {
    && Keyed(s.table)
    && (forall id :: id in s.table && s.table[id].kind.Heartbeat? ==> s.table[id].filed.None? && s.table[id].author.None?)
    && |Heartbeats(s.table)| <= KEPT_HEARTBEATS
    && Replay(s.ledger) == Images(s.table)
    && Truthful(s.ledger)
  }

  lemma OfKind(t: Table)
    requires Keyed(t)
    ensures forall r :: r in Heartbeats(t) <==> r.id in t && t[r.id] == r && r.kind.Heartbeat?
    ensures forall r :: r in Notes(t) <==> r.id in t && t[r.id] == r && r.kind.Note?
  {
  }

  lemma Recorded(ledger: seq<Entry>, e: Entry)
    requires Truthful(ledger)
    requires OfANote(e) ==> e.before == At(Replay(ledger), e.id)
    ensures Truthful(ledger + [e]) && Replay(ledger + [e]) == Apply(Replay(ledger), e)
  {
    var longer := ledger + [e];
    assert longer[..|ledger|] == ledger;
    forall i | 0 <= i < |longer| && OfANote(longer[i])
      ensures longer[i].before == At(Replay(longer[..i]), longer[i].id)
    {
      if i < |ledger| {
        assert longer[..i] == ledger[..i];
      }
    }
  }

  lemma InsertKeeps(s: State, verb: Verb, row: Row)
    requires Inv(s) && row.id !in s.table && row.kind.Note?
    ensures Inv(InsertOn(s, verb, row))
  {
    var entry := Created(verb, row);
    Recorded(s.ledger, entry);
    NoteInserted(s.table, row);
    assert Apply(Images(s.table), entry) == Images(s.table)[row.id := ImageOf(row)];
    var after := InsertOn(s, verb, row);
    assert after.table == s.table[row.id := row] && after.ledger == s.ledger + [entry];
  }

  lemma NoteInserted(t: Table, row: Row)
    requires Keyed(t) && row.id !in t && row.kind.Note?
    ensures Heartbeats(t[row.id := row]) == Heartbeats(t)
    ensures Images(t[row.id := row]) == Images(t)[row.id := ImageOf(row)]
  {
    OfKind(t);
    OfKind(t[row.id := row]);
  }

  lemma RemoveKeeps(s: State, id: nat)
    requires Inv(s)
    ensures Inv(RemoveOn(s, id))
  {
    if id in s.table {
      Recorded(s.ledger, Erased(s.table[id]));
      var after := RemoveOn(s, id);
      assert Heartbeats(after.table) <= Heartbeats(s.table);
      Smaller(Heartbeats(after.table), Heartbeats(s.table));
      assert Images(after.table) == if s.table[id].kind.Note? then Images(s.table) - {id} else Images(s.table);
    }
  }

  /** The ids a list names. */
  function Named(order: seq<nat>): set<nat> { set id | id in order }

  lemma NamedLast(order: seq<nat>)
    requires order != []
    ensures Named(order) == Named(order[..|order| - 1]) + {order[|order| - 1]}
  {
  }

  lemma OneMoreImage(t: Table, cleared: set<nat>, id: nat)
    requires Keyed(t) && id in t && id !in cleared && t[id].kind.Note?
    ensures Images(Cleared(t, cleared + {id})) == Images(Cleared(t, cleared))[id := ImageOf(t[id].(filed := None))]
    ensures At(Images(Cleared(t, cleared)), id) == Some(ImageOf(t[id]))
  {
  }

  lemma LastWithdrawal(ledger: seq<Entry>, t: Table, order: seq<nat>, activity: nat)
    requires order != [] && forall id :: id in order ==> id in t
    ensures ledger + Withdrawals(t, order, activity)
         == (ledger + Withdrawals(t, order[..|order| - 1], activity)) + [Withdrawn(t[order[|order| - 1]], activity)]
  {
  }

  /** Recording the withdrawals of `order` one by one clears, in the replay, exactly those. */
  lemma {:induction false} WithdrawalsReplay(s: State, activity: nat, table: Table, order: seq<nat>)
    requires Replay(s.ledger) == Images(s.table) && Truthful(s.ledger) && Keyed(s.table)
    requires forall id :: id in order ==> id in s.table && s.table[id].kind.Note? && s.table[id].filed == Some(activity)
    requires forall id :: id in order ==> id in table && table[id] == s.table[id].(filed := None)
    requires Once(order)
    ensures Truthful(s.ledger + Withdrawals(table, order, activity))
    ensures Replay(s.ledger + Withdrawals(table, order, activity)) == Images(Cleared(s.table, Named(order)))
  {
    if order == [] {
      assert Cleared(s.table, Named(order)) == s.table;
      assert s.ledger + Withdrawals(table, order, activity) == s.ledger;
    } else {
      var last := order[|order| - 1];
      var shorter := order[..|order| - 1];
      assert last in order && last !in Named(shorter);
      assert forall id :: id in shorter ==> id in order;
      WithdrawalsReplay(s, activity, table, shorter);
      NamedLast(order);
      OneMoreImage(s.table, Named(shorter), last);
      var so := s.ledger + Withdrawals(table, shorter, activity);
      var entry := Withdrawn(table[last], activity);
      assert table[last].(filed := Some(activity)) == s.table[last];
      Recorded(so, entry);
      LastWithdrawal(s.ledger, table, order, activity);
    }
  }

  lemma ClearedKeeps(t: Table, activity: nat)
    requires Keyed(t)
    ensures Keyed(Cleared(t, FiledTo(t, activity)))
    requires forall id :: id in t && t[id].kind.Heartbeat? ==> t[id].filed.None?
    ensures Heartbeats(Cleared(t, FiledTo(t, activity))) == Heartbeats(t)
  {
    OfKind(t);
    OfKind(Cleared(t, FiledTo(t, activity)));
  }

  lemma WithdrawKeeps(s: State, activity: nat, order: seq<nat>)
    requires Inv(s) && Orders(order, FiledTo(s.table, activity))
    ensures Inv(WithdrawOn(s, activity, order))
  {
    var filed := FiledTo(s.table, activity);
    var table := Cleared(s.table, filed);
    assert Named(order) == filed;
    ClearedKeeps(s.table, activity);
    WithdrawalsReplay(s, activity, table, order);
  }

  /** Of the ticks the newest ten stay, of everything else all. */
  lemma TickLeaves(t: Table, tick: Row)
    requires Keyed(t) && tick.id !in t && tick.kind.Heartbeat?
    ensures var after := Ticked(t, tick);
      && Keyed(after)
      && Heartbeats(t[tick.id := tick]) == Heartbeats(t) + {tick}
      && Heartbeats(after) == Newest(Heartbeats(t) + {tick}, KEPT_HEARTBEATS)
      && Notes(after) == Notes(t)
      && (forall id :: id in after ==> after[id] == t[tick.id := tick][id])
  {
    var written := t[tick.id := tick];
    OfKind(t);
    OfKind(written);
    assert Heartbeats(written) == Heartbeats(t) + {tick};
    var after := Ticked(t, tick);
    OfKind(after);
    assert Notes(after) == Notes(t);
  }

  lemma HeartbeatsDistinct(t: Table)
    requires Keyed(t)
    ensures Distinct(Heartbeats(t))
  {
  }

  lemma TickImages(t: Table, tick: Row)
    requires tick.id !in t && tick.kind.Heartbeat?
    ensures Images(Ticked(t, tick)) == Images(t)
  {
  }

  lemma TickCount(t: Table, tick: Row)
    requires Keyed(t) && tick.id !in t && tick.kind.Heartbeat?
    ensures Keyed(Ticked(t, tick)) && |Heartbeats(Ticked(t, tick))| <= KEPT_HEARTBEATS
  {
    TickLeaves(t, tick);
    HeartbeatsDistinct(t[tick.id := tick]);
    NewestCount(Heartbeats(t) + {tick}, KEPT_HEARTBEATS);
  }

  lemma TickKeeps(s: State, tick: Row)
    requires Inv(s) && tick.id !in s.table && tick.kind.Heartbeat? && tick.filed.None? && tick.author.None?
    ensures Inv(HeartbeatOn(s, tick))
  {
    TickCount(s.table, tick);
    TickImages(s.table, tick);
  }

  lemma StepKeeps(s: State, e: Event)
    requires Inv(s) && Enabled(s, e)
    ensures Inv(Step(s, e))
  {
    match e
    case Add(_, raw, _, _) =>
      if NoteBody(raw).Some? { InsertKeeps(s, NoteAdded, NoteRow(e, NoteBody(raw).value)); }
    case File(_, raw, subject, activity, _, _) =>
      if NoteBody(raw).Some? && subject && activity.Some? {
        InsertKeeps(s, NoteFiled, NoteRow(e, NoteBody(raw).value));
      }
    case Remove(requested) => if requested.Some? { RemoveKeeps(s, requested.value); }
    case Withdraw(activity, order) => if activity.Some? { WithdrawKeeps(s, activity.value, order); }
    case Tick(text, id, now) => TickKeeps(s, Row(id, Heartbeat, text, None, None, now));
  }

  lemma {:induction false} RunKeeps(states: seq<State>, events: seq<Event>, i: nat)
    requires Run(states, events) && i < |states|
    ensures Inv(states[i])
  {
    if i == 0 {
      assert Heartbeats(map[]) == {};
      assert Images(map[]) == map[];
    } else {
      RunKeeps(states, events, i - 1);
      StepKeeps(states[i - 1], events[i - 1]);
    }
  }

  // ------------------------------------------------------------------
  // What every run keeps
  // ------------------------------------------------------------------

  /** At every moment the ledger, read for human notes alone, is exactly the human notes, and never misstates what was there. */
  lemma LedgerIsTheNotes(states: seq<State>, events: seq<Event>, i: nat)
    requires Run(states, events) && i < |states|
    ensures Replay(states[i].ledger) == Images(states[i].table) && Truthful(states[i].ledger)
  {
    RunKeeps(states, events, i);
  }

  /**
   A tick leaves of the ticks exactly the newest, at most ten: none it drops was
   written after one it keeps, and one written later than every other stays. Every
   human note and the ledger stay.
   */
  lemma TickKeepsTheNewest(states: seq<State>, events: seq<Event>, i: nat)
    requires Run(states, events) && i < |events| && events[i].Tick?
    ensures Notes(states[i + 1].table) == Notes(states[i].table) && states[i + 1].ledger == states[i].ledger
    ensures var e := events[i];
      var tick := Row(e.id, Heartbeat, e.text, None, None, e.now);
      var before := Heartbeats(states[i].table) + {tick};
      var after := Heartbeats(states[i + 1].table);
      && after <= before
      && |after| == (if |before| < KEPT_HEARTBEATS then |before| else KEPT_HEARTBEATS)
      && (forall kept, dropped :: kept in after && dropped in before - after ==>
            dropped.created <= kept.created && (dropped.created == kept.created ==> dropped.id < kept.id))
      && ((forall other :: other in Heartbeats(states[i].table) ==> other.created < e.now) ==> tick in after)
  {
    RunKeeps(states, events, i);
    var e := events[i];
    var tick := Row(e.id, Heartbeat, e.text, None, None, e.now);
    assert states[i + 1].table == Ticked(states[i].table, tick);
    TickLeaves(states[i].table, tick);
    HeartbeatsDistinct(states[i].table[e.id := tick]);
    var before := Heartbeats(states[i].table) + {tick};
    NewestCount(before, KEPT_HEARTBEATS);
    forall kept, dropped | kept in Newest(before, KEPT_HEARTBEATS) && dropped in before - Newest(before, KEPT_HEARTBEATS)
      ensures dropped.created <= kept.created && (dropped.created == kept.created ==> dropped.id < kept.id)
    {
      NewestAreNewest(before, KEPT_HEARTBEATS, kept, dropped);
    }
    if forall other :: other in Heartbeats(states[i].table) ==> other.created < e.now {
      LatestIsNewest(before, KEPT_HEARTBEATS, tick);
    }
  }

  /** The human notes written after one, or at the same time under a larger id. */
  function NotesAfter(t: Table, note: Row): set<Row> {
    set other | other in Notes(t) && (note.created < other.created || (note.created == other.created && note.id < other.id))
  }

  /** Ticks never crowd a human note off the screen: one with fewer than 190 notes after it is always among what a read answers. */
  lemma NewestNotesAreListed(states: seq<State>, events: seq<Event>, i: nat, note: Row)
    requires Run(states, events) && i < |states|
    requires note in Notes(states[i].table) && |NotesAfter(states[i].table, note)| < MAX_NOTES_PER_READ - KEPT_HEARTBEATS
    ensures note in Listed(states[i].table)
  {
    RunKeeps(states, events, i);
    var t := states[i].table;
    var notes, ticks := NotesAfter(t, note), Ahead(Heartbeats(t), note);
    assert notes == Ahead(Notes(t), note);
    assert Ahead(t.Values, note) == notes + ticks;
    Smaller(ticks, Heartbeats(t));
  }

  lemma LatestIsListed(t: Table, note: Row)
    requires forall id :: id in t ==> t[id].created < note.created
    ensures note in Listed(t[note.id := note])
  {
    var u := t[note.id := note];
    assert u[note.id] == note;
    LatestIsNewest(u.Values, MAX_NOTES_PER_READ, note);
  }

  /** A note written later than every row there was is in what the next read answers. */
  lemma FreshNoteIsListed(states: seq<State>, events: seq<Event>, i: nat)
    requires Run(states, events) && i < |events| && events[i].Add? && NoteBody(events[i].raw).Some?
    requires forall id :: id in states[i].table ==> states[i].table[id].created < events[i].now
    ensures NoteRow(events[i], NoteBody(events[i].raw).value) in Listed(states[i + 1].table)
  {
    LatestIsListed(states[i].table, NoteRow(events[i], NoteBody(events[i].raw).value));
  }

  // ------------------------------------------------------------------
  // Redelivery
  // ------------------------------------------------------------------

  /** After a withdrawal no note is filed to its activity, and none comes to be while nobody files to it. */
  lemma {:induction false} StaysWithdrawn(states: seq<State>, events: seq<Event>, i: nat, j: nat, activity: nat)
    requires Run(states, events) && i < j < |states|
    requires events[i].Withdraw? && events[i].activity == Some(activity)
    requires forall k :: i < k < j && events[k].File? ==> events[k].activity != Some(activity)
    ensures FiledTo(states[j].table, activity) == {}
  {
    if j - 1 == i {
      assert states[j] == WithdrawOn(states[i], activity, events[i].order);
    } else {
      StaysWithdrawn(states, events, i, j - 1, activity);
      NobodyFiles(states[j - 1], events[j - 1], activity);
    }
  }

  lemma NobodyFiles(s: State, e: Event, activity: nat)
    requires Enabled(s, e) && FiledTo(s.table, activity) == {}
    requires e.File? ==> e.activity != Some(activity)
    ensures FiledTo(Step(s, e).table, activity) == {}
  {
  }

  /** A withdrawal delivered again, however much later, changes nothing and records nothing. */
  lemma RedeliveryIsSilent(states: seq<State>, events: seq<Event>, i: nat, j: nat)
    requires Run(states, events) && i < j < |events|
    requires events[i].Withdraw? && events[j].Withdraw? && events[i].activity == events[j].activity
    requires forall k :: i < k < j && events[k].File? ==> events[k].activity != events[i].activity
    ensures states[j + 1] == states[j]
  {
    if events[i].activity.Some? {
      var activity := events[i].activity.value;
      StaysWithdrawn(states, events, i, j, activity);
      Silent(states[j], activity, events[j].order);
    }
  }

  lemma Silent(s: State, activity: nat, order: seq<nat>)
    requires FiledTo(s.table, activity) == {} && Orders(order, {})
    ensures WithdrawOn(s, activity, order) == s
  {
  }

  /** A withdrawal takes the filing off every note that named the activity, records each once, and touches no other row. */
  lemma WithdrawalIsComplete(s: State, activity: nat, order: seq<nat>)
    requires Inv(s) && Orders(order, FiledTo(s.table, activity))
    ensures var after := WithdrawOn(s, activity, order);
      && after.table.Keys == s.table.Keys
      && (forall id :: id in s.table ==>
            after.table[id] == if s.table[id].filed == Some(activity) then s.table[id].(filed := None) else s.table[id])
      && |after.ledger| == |s.ledger| + |FiledTo(s.table, activity)|
      && forall id :: id in FiledTo(s.table, activity) ==>
           s.table[id].kind.Note?
           && Entry(Update, FilingWithdrawn, id, Some(ImageOf(s.table[id])), Some(ImageOf(after.table[id]))) in after.ledger
  {
    var filed := FiledTo(s.table, activity);
    var table := Cleared(s.table, filed);
    WithdrawalsAre(table, order, activity);
    assert Named(order) == filed;
    OnceEach(order);
    forall id | id in filed
      ensures Entry(Update, FilingWithdrawn, id, Some(ImageOf(s.table[id])), Some(ImageOf(table[id])))
           in s.ledger + Withdrawals(table, order, activity)
    {
      assert id in order;
      assert table[id].(filed := Some(activity)) == s.table[id];
      assert Withdrawn(table[id], activity) in Withdrawals(table, order, activity);
    }
  }

  lemma {:induction false} WithdrawalsAre(t: Table, order: seq<nat>, activity: nat)
    requires forall id :: id in order ==> id in t
    ensures |Withdrawals(t, order, activity)| == |order|
    ensures forall id :: id in order ==> Withdrawn(t[id], activity) in Withdrawals(t, order, activity)
  {
    if order != [] {
      WithdrawalsAre(t, order[..|order| - 1], activity);
      assert order == order[..|order| - 1] + [order[|order| - 1]];
    }
  }

  lemma {:induction false} OnceEach(order: seq<nat>)
    requires Once(order)
    ensures |Named(order)| == |order|
  {
    if order != [] {
      var shorter := order[..|order| - 1];
      OnceEach(shorter);
      NamedLast(order);
      assert order[|order| - 1] !in shorter;
    }
  }

  // ------------------------------------------------------------------
  // Where replay stops
  // ------------------------------------------------------------------

  /** Removing a tick records the erasure of a row whose creation was never recorded: only the human notes replay. */
  lemma TicksDoNotReplay(text: string, id: nat, now: nat)
    ensures var states := [State(map[], []),
                           HeartbeatOn(State(map[], []), Row(id, Heartbeat, text, None, None, now)),
                           State(map[], [Erased(Row(id, Heartbeat, text, None, None, now))])];
            Run(states, [Tick(text, id, now), Remove(Some(id))])
            && states[2].ledger[0].before.Some?
  {
  }

  /** A body is accepted exactly when what is left of it without the space around it is of one to five hundred characters. */
  lemma AcceptedBodies(raw: string, body: string)
    ensures NoteBody(raw) == Some(body)
       <==> Trimmed(body, GoSpace) && 1 <= |body| <= MAX_NOTE_BODY
            && exists before, after :: AllSpace(before, GoSpace) && AllSpace(after, GoSpace) && raw == before + body + after
  {
    TrimTrims(raw, GoSpace);
    var start, end := TrimSplits(raw, GoSpace);
    forall before, after | body != "" && Trimmed(body, GoSpace) && AllSpace(before, GoSpace) && AllSpace(after, GoSpace)
                           && raw == before + body + after
      ensures Trim(raw, GoSpace) == body
    {
      TrimExactly(before, body, after, GoSpace);
    }
  }
}
