/**
 What the notepad's history can be read for (extensions/notes/ledger.go, note.go,
 filing.go): which rows an image tells apart, what each entry stands for, and who
 wrote each note.
 */
module NotesHistory {
  import opened Wrappers
  import opened NotesRows
  import opened NotesLedger

  /** An image tells two rows apart in everything but the fraction of the second they were written in. */
  lemma ImagesTellApart(a: Row, b: Row)
    ensures ImageOf(a) == ImageOf(b)
       <==> a.id == b.id && a.kind == b.kind && a.body == b.body && a.author == b.author && a.filed == b.filed
            && a.created / 1_000_000 == b.created / 1_000_000
    ensures ImageOf(a).id == a.id && ImageOf(a).seconds * 1_000_000 <= a.created < (ImageOf(a).seconds + 1) * 1_000_000
  {
  }

  // ------------------------------------------------------------------
  // What each entry stands for
  // ------------------------------------------------------------------

  /** What happened, told from the entry's images alone. */
  predicate SaysWhatHappened(e: Entry) {
    match e.verb
    case NoteAdded => e.action == Create && e.before.None? && e.after.Some? && e.after.value.id == e.id && e.after.value.filed.None?
    case NoteFiled => e.action == Create && e.before.None? && e.after.Some? && e.after.value.id == e.id && e.after.value.filed.Some?
    case NoteRemoved => e.action == Erase && e.before.Some? && e.before.value.id == e.id && e.after.None?
    case FilingWithdrawn =>
      && e.action == Update && e.before.Some? && e.after.Some? && e.after.value.id == e.id
      && e.before.value.filed.Some? && e.after.value == e.before.value.(filed := None)
  }

  ghost predicate LedgerSpeaks(ledger: seq<Entry>) {
    forall e :: e in ledger ==> SaysWhatHappened(e)
  }

  lemma {:induction false} WithdrawalsSpeak(t: Table, order: seq<nat>, activity: nat)
    requires forall id :: id in order ==> id in t && t[id].id == id && t[id].filed.None?
    ensures LedgerSpeaks(Withdrawals(t, order, activity))
  {
    if order != [] {
      WithdrawalsSpeak(t, order[..|order| - 1], activity);
    }
  }

  lemma WithdrawSpeaks(s: State, activity: nat, order: seq<nat>)
    requires Keyed(s.table) && Orders(order, FiledTo(s.table, activity)) && LedgerSpeaks(s.ledger)
    ensures LedgerSpeaks(WithdrawOn(s, activity, order).ledger)
  {
    WithdrawalsSpeak(Cleared(s.table, FiledTo(s.table, activity)), order, activity);
  }

  lemma OneMoreSpeaks(ledger: seq<Entry>, e: Entry)
    requires LedgerSpeaks(ledger) && SaysWhatHappened(e)
    ensures LedgerSpeaks(ledger + [e])
  {
  }

  lemma StepSpeaks(s: State, e: Event)
    requires Keyed(s.table) && Enabled(s, e) && LedgerSpeaks(s.ledger)
    ensures LedgerSpeaks(Step(s, e).ledger)
  {
    match e
    case Add(_, raw, _, _) =>
      if NoteBody(raw).Some? {
        OneMoreSpeaks(s.ledger, Created(NoteAdded, NoteRow(e, NoteBody(raw).value)));
      }
    case File(_, raw, subject, activity, _, _) =>
      if NoteBody(raw).Some? && subject && activity.Some? {
        OneMoreSpeaks(s.ledger, Created(NoteFiled, NoteRow(e, NoteBody(raw).value)));
      }
    case Remove(requested) =>
      if requested.Some? && requested.value in s.table {
        OneMoreSpeaks(s.ledger, Erased(s.table[requested.value]));
      }
    case Withdraw(activity, order) =>
      if activity.Some? {
        WithdrawSpeaks(s, activity.value, order);
      }
    case Tick(_, _, _) =>
  }

  /** At every moment each entry's verb can be told from its images. */
  lemma {:induction false} EntriesSayWhatHappened(states: seq<State>, events: seq<Event>, i: nat)
    requires Run(states, events) && i < |states|
    ensures LedgerSpeaks(states[i].ledger)
  {
    if i > 0 {
      EntriesSayWhatHappened(states, events, i - 1);
      RunKeeps(states, events, i - 1);
      StepSpeaks(states[i - 1], events[i - 1]);
    }
  }

  // ------------------------------------------------------------------
  // Who wrote what
  // ------------------------------------------------------------------

  /** The request that made this note: its words, its time, and its caller for an author, if it had one. */
  predicate Makes(e: Event, note: Row) {
    && (e.Add? || e.File?)
    && e.id == note.id && e.now == note.created && NoteBody(e.raw) == Some(note.body)
    && (note.author.None? <==> e.caller.userId == "")
    && (note.author.Some? ==> note.author.value.userId == e.caller.userId && note.author.value.isAgent == e.caller.isAgent)
    && (note.filed.Some? ==> e.File? && e.subject && e.activity == note.filed)
  }

  ghost predicate Made(events: seq<Event>, i: nat, note: Row) {
    exists k :: 0 <= k < i && k < |events| && Makes(events[k], note)
  }

  /** A note a step leaves was there before, if filed then perhaps no longer, or is made by it. */
  lemma StepMakes(s: State, e: Event, note: Row)
    requires Keyed(s.table) && Enabled(s, e) && note in Notes(Step(s, e).table)
    ensures Makes(e, note) || note in Notes(s.table)
            || (note.filed.None? && note.id in s.table && s.table[note.id].kind.Note? && note == s.table[note.id].(filed := None))
  {
  }

  /**
   Every note on the notepad was made by a request that is in the run, and is what
   that request said: signed with its caller or, of a caller with nobody behind it,
   with nothing; filed nowhere but where it was filed then.
   */
  lemma {:induction false} EveryNoteWasMade(states: seq<State>, events: seq<Event>, i: nat, note: Row)
    requires Run(states, events) && i < |states| && note in Notes(states[i].table)
    ensures Made(events, i, note)
  {
    if i > 0 {
      RunKeeps(states, events, i - 1);
      StepMakes(states[i - 1], events[i - 1], note);
      if !Makes(events[i - 1], note) {
        var before := if note in Notes(states[i - 1].table) then note else states[i - 1].table[note.id];
        EveryNoteWasMade(states, events, i - 1, before);
        var k :| 0 <= k < i - 1 && k < |events| && Makes(events[k], before);
        assert Makes(events[k], note);
      }
    }
  }
}
