/**
 What becomes of each notification a landing is given (extensions/relay-probe/poll.go,
 record.go), told before it runs from the notification, the directory of senders and
 the core's own answer to it; and what a poll fails of, told from what it met.
 */
module RelayFates {
  import opened Wrappers
  import opened RelayErrors
  import opened RelayFeed
  import opened RelayRecord
  import opened RelayTable
  import opened RelayLanding

  /** Not put to the core for either of two reasons, or answered by it. */
  datatype Fate = Filtered | Unaddressed | Answered(answer: Answer)

  /** Somebody is named as the sender, the provider knows them, and it knows an address of theirs. */
  predicate Addressed(directory: Directory, item: Item) {
    item.senderId != "" && item.senderId in directory.users && directory.users[item.senderId].email != ""
  }

  /** The fate of the item whose turn it is. */
  function FateNow(answers: seq<Answer>, directory: Directory, item: Item): Fate {
    if !Directed(item) then Filtered
    else if !Addressed(directory, item) then Unaddressed
    else Answered(if answers == [] then Accepted else answers[0])
  }

  /** What is left of a script once `n` of it are used up. */
  function LeftOf<T>(script: seq<T>, n: nat): seq<T> {
    if n < |script| then script[n..] else []
  }

  /** The core is asked about the directed items whose sender has an address, in order, and about no others. */
  function Fates(answers: seq<Answer>, directory: Directory, todo: seq<Item>): (fates: seq<Fate>)
    ensures |fates| == |todo|
    decreases |todo|
  {
    if todo == [] then []
    else
      var fate := FateNow(answers, directory, todo[0]);
      [fate] + Fates(if fate.Answered? then LeftOf(answers, 1) else answers, directory, todo[1..])
  }

  /** It will never land: nobody to answer, or the core calls the record invalid. */
  predicate Drops(fate: Fate) {
    fate.Unaddressed? || (fate.Answered? && fate.answer.Refused? && ErrInvalid in fate.answer.error)
  }

  /** The core refused it for a reason that has nothing to do with the record. */
  predicate Stops(fate: Fate) {
    fate.Answered? && fate.answer.Refused? && ErrInvalid !in fate.answer.error
  }

  /** The ledger's entry for a dropped item. */
  function DropEntry(conn: Row, item: Item, fate: Fate): Entry {
    Entry(Update, EventRecordDropped, conn.id, None, None,
          Some(Drop(item.id, if fate.Unaddressed? then "unrepresentable" else "refused_by_the_core")))
  }

  /** One entry for each dropped item, in order. */
  function DropEntries(conn: Row, todo: seq<Item>, fates: seq<Fate>): seq<Entry>
    requires |fates| == |todo|
  {
    if todo == [] then []
    else (if Drops(fates[0]) then [DropEntry(conn, todo[0], fates[0])] else []) + DropEntries(conn, todo[1..], fates[1..])
  }

  /** The keys of the items answered so. */
  function KeysAnswered(workspace: string, todo: seq<Item>, fates: seq<Fate>, answer: Answer): set<string>
    requires |fates| == |todo|
  {
    if todo == [] then {}
    else (if fates[0] == Answered(answer) then {Key(workspace, todo[0].id)} else {})
         + KeysAnswered(workspace, todo[1..], fates[1..], answer)
  }

  function Asked(fates: seq<Fate>): nat {
    if fates == [] then 0 else (if fates[0].Answered? then 1 else 0) + Asked(fates[1..])
  }

  /** The n-th write of a drop fails of this. */
  predicate WriteFails(writes: seq<Option<Error>>, n: nat, error: Error) {
    n < |writes| && writes[n] == Some(error)
  }

  /** The first `n` writes all go through. */
  predicate WritesPass(writes: seq<Option<Error>>, n: nat) {
    forall i :: 0 <= i < n && i < |writes| ==> writes[i].None?
  }

  /** The record is one of these items, accepted by the core, under its own key and for this member. */
  predicate TakenOver(conn: Row, workspace: string, todo: seq<Item>, fates: seq<Fate>, r: Landed)
    requires |fates| == |todo|
  {
    exists i :: 0 <= i < |todo| && fates[i] == Answered(Accepted) && r == Landed(Key(workspace, todo[i].id), conn.member, todo[i])
  }

  /** These items, each having met its fate and none of them a stopping one, take the desk from `d` to `e`. */
  ghost predicate Met(d: Desk, conn: Row, workspace: string, todo: seq<Item>, fates: seq<Fate>, e: Desk)
    requires |fates| == |todo|
  {
    && (forall fate :: fate in fates ==> !Stops(fate))
    && e.table == d.table.(ledger := d.table.ledger + DropEntries(conn, todo, fates))
    && WritesPass(d.writes, |DropEntries(conn, todo, fates)|)
    && e.writes == LeftOf(d.writes, |DropEntries(conn, todo, fates)|)
    && e.answers == LeftOf(d.answers, Asked(fates))
    && e.skipped == d.skipped + KeysAnswered(workspace, todo, fates, Skipped)
    && KeysOf(e.landed) == KeysOf(d.landed) + KeysAnswered(workspace, todo, fates, Accepted)
    && d.landed <= e.landed
    && forall i :: |d.landed| <= i < |e.landed| ==> TakenOver(conn, workspace, todo, fates, e.landed[i])
  }

  /** The item at which a landing stops: the core's refusal of it, exactly, or the failure of its drop's own write. */
  predicate StopsWith(fate: Fate, writes: seq<Option<Error>>, dropped: nat, error: Error) {
    || (Stops(fate) && fate.answer.error == error)
    || (Drops(fate) && WriteFails(writes, dropped, error))
  }

  /** How a landing ends: all of it met, or up to the item that stopped it. */
  ghost predicate LandedAs(d: Desk, conn: Row, workspace: string, todo: seq<Item>, fates: seq<Fate>,
                           e: Desk, done: nat, error: Option<Error>)
    requires |fates| == |todo|
  {
    match error
    case None => done == |todo| && Met(d, conn, workspace, todo, fates, e)
    case Some(cause) =>
      && done < |todo|
      && StopsWith(fates[done], d.writes, |DropEntries(conn, todo[..done], fates[..done])|, cause)
      && exists mid :: Met(d, conn, workspace, todo[..done], fates[..done], mid)
                       && e == mid.(answers := e.answers, writes := e.writes)
  }

  // ------------------------------------------------------------------
  // What the fates say
  // ------------------------------------------------------------------

  /** Who is addressed by which kinds: reactions, system notices, kinds not heard of and bots never are. */
  lemma DirectedExactly(item: Item)
    ensures Directed(item)
       <==> !item.senderIsBot && (item.kind == "dm" || item.kind == "dm_thread_reply" || item.kind == "mention"
                                  || item.kind == "channel_mention" || item.kind == "thread_reply")
  {
  }

  /** A record is built exactly where the sender has an address, and names both ends of the message. */
  lemma RecordNamesBothEnds(directory: Directory, item: Item, member: ProviderUser, workspace: string)
    ensures var built := RecordFor(item, SenderOf(directory, item), member, workspace);
            && (built.Some? <==> Addressed(directory, item))
            && (built.Some? ==>
                  && built.value.raw == item && built.value.key == Key(workspace, item.id)
                  && built.value.addresses == [directory.users[item.senderId].email, member.email])
  {
  }

  /** An item is filtered, unaddressed or answered for its own reasons, and by the answer whose turn it is. */
  lemma {:induction false} FateExactly(answers: seq<Answer>, directory: Directory, todo: seq<Item>, i: nat)
    requires i < |todo|
    ensures var fates := Fates(answers, directory, todo);
            && (fates[i].Filtered? <==> !Directed(todo[i]))
            && (fates[i].Answered? <==> Directed(todo[i]) && Addressed(directory, todo[i]))
            && (fates[i].Answered? ==>
                  var k := Asked(fates[..i]); fates[i].answer == if k < |answers| then answers[k] else Accepted)
    decreases |todo|
  {
    var fates := Fates(answers, directory, todo);
    if i > 0 {
      var later := LeftOf(answers, Asked(fates[..1]));
      NextFate(answers, directory, todo);
      FateExactly(later, directory, todo[1..], i - 1);
      assert fates[..i] == fates[..1] + fates[1..][..i - 1];
      AskedJoin(fates[..1], fates[1..][..i - 1]);
    }
  }

  /** An entry is among the drops exactly when some item has no address or was refused as invalid, and it is that one's. */
  lemma {:induction false} DropEntriesAre(conn: Row, todo: seq<Item>, fates: seq<Fate>, entry: Entry)
    requires |fates| == |todo|
    ensures entry in DropEntries(conn, todo, fates)
       <==> exists i :: 0 <= i < |todo| && Drops(fates[i]) && entry == DropEntry(conn, todo[i], fates[i])
  {
    if todo != [] {
      DropEntriesAre(conn, todo[1..], fates[1..], entry);
      if i :| 0 <= i < |todo| && Drops(fates[i]) && entry == DropEntry(conn, todo[i], fates[i]) {
        if i > 0 {
          assert Drops(fates[1..][i - 1]) && entry == DropEntry(conn, todo[1..][i - 1], fates[1..][i - 1]);
        }
      }
      if j :| 0 <= j < |todo| - 1 && Drops(fates[1..][j]) && entry == DropEntry(conn, todo[1..][j], fates[1..][j]) {
        assert Drops(fates[j + 1]) && entry == DropEntry(conn, todo[j + 1], fates[j + 1]);
      }
    }
  }

  /** A key is among those answered so exactly when some item answered so is under it. */
  lemma {:induction false} KeysAnsweredAre(workspace: string, todo: seq<Item>, fates: seq<Fate>, answer: Answer, key: string)
    requires |fates| == |todo|
    ensures key in KeysAnswered(workspace, todo, fates, answer)
       <==> exists i :: 0 <= i < |todo| && fates[i] == Answered(answer) && key == Key(workspace, todo[i].id)
  {
    if todo != [] {
      KeysAnsweredAre(workspace, todo[1..], fates[1..], answer, key);
      if i :| 0 <= i < |todo| && fates[i] == Answered(answer) && key == Key(workspace, todo[i].id) {
        if i > 0 {
          assert fates[1..][i - 1] == Answered(answer) && key == Key(workspace, todo[1..][i - 1].id);
        }
      }
      if j :| 0 <= j < |todo| - 1 && fates[1..][j] == Answered(answer) && key == Key(workspace, todo[1..][j].id) {
        assert fates[j + 1] == Answered(answer) && key == Key(workspace, todo[j + 1].id);
      }
    }
  }

  // ------------------------------------------------------------------
  // Landing meets these fates
  // ------------------------------------------------------------------

  lemma NextFate(answers: seq<Answer>, directory: Directory, todo: seq<Item>)
    requires todo != []
    ensures var fates := Fates(answers, directory, todo);
            && Fates(answers, directory, todo[..1]) == fates[..1]
            && Fates(LeftOf(answers, Asked(fates[..1])), directory, todo[1..]) == fates[1..]
  {
    var first := FateNow(answers, directory, todo[0]);
    assert todo[..1] == [todo[0]] && [todo[0]][1..] == [];
    var later := LeftOf(answers, Asked([first]));
    assert Asked([first]) == (if first.Answered? then 1 else 0) && LeftOf(answers, 0) == answers;
    assert Fates(answers, directory, [todo[0]]) == [first];
    assert Fates(answers, directory, todo) == [first] + Fates(later, directory, todo[1..]);
  }

  /** One item, and the fate it meets. */
  ghost predicate LandedOne(d: Desk, conn: Row, workspace: string, item: Item, fate: Fate, e: Desk, error: Option<Error>) {
    match error
    case None => Met(d, conn, workspace, [item], [fate], e)
    case Some(cause) => StopsWith(fate, d.writes, 0, cause) && e == d.(answers := e.answers, writes := e.writes)
  }

  lemma OfOne(conn: Row, workspace: string, item: Item, fate: Fate, answer: Answer)
    ensures DropEntries(conn, [item], [fate]) == if Drops(fate) then [DropEntry(conn, item, fate)] else []
    ensures KeysAnswered(workspace, [item], [fate], answer) == if fate == Answered(answer) then {Key(workspace, item.id)} else {}
    ensures Asked([fate]) == if fate.Answered? then 1 else 0
  {
  }

  /** A dropped item's entry is written, or its write fails and nothing else happens. */
  lemma DropMeets(d: Desk, conn: Row, directory: Directory, member: ProviderUser, item: Item, fate: Fate)
    requires Drops(fate) && (fate.Unaddressed? <==> !Addressed(directory, item)) && (fate.Answered? ==> fate.answer == NextAnswer(d))
    requires Directed(item)
    ensures var (e, error) := LandOneOn(d, conn, directory, member, item);
            LandedOne(d, conn, member.workspaceId, item, fate, e, error)
  {
    OfOne(conn, member.workspaceId, item, fate, Accepted);
    OfOne(conn, member.workspaceId, item, fate, Skipped);
  }

  lemma KeepMeets(d: Desk, conn: Row, directory: Directory, member: ProviderUser, item: Item, fate: Fate)
    requires !Drops(fate) && fate == Answered(NextAnswer(d)) && Addressed(directory, item) && Directed(item)
    ensures var (e, error) := LandOneOn(d, conn, directory, member, item);
            LandedOne(d, conn, member.workspaceId, item, fate, e, error)
  {
    OfOne(conn, member.workspaceId, item, fate, Accepted);
    OfOne(conn, member.workspaceId, item, fate, Skipped);
    if fate == Answered(Accepted) {
      assert [item][0] == item && [fate][0] == Answered(Accepted);
    }
  }

  lemma LandOneMeets(d: Desk, conn: Row, directory: Directory, member: ProviderUser, item: Item)
    requires Directed(item)
    ensures var (e, error) := LandOneOn(d, conn, directory, member, item);
            LandedOne(d, conn, member.workspaceId, item, Fates(d.answers, directory, [item])[0], e, error)
  {
    var fate := if Addressed(directory, item) then Answered(NextAnswer(d)) else Unaddressed;
    assert Fates(d.answers, directory, [item])[0] == fate;
    if Drops(fate) {
      DropMeets(d, conn, directory, member, item, fate);
    } else {
      KeepMeets(d, conn, directory, member, item, fate);
    }
  }

  lemma FilteredMeets(d: Desk, conn: Row, directory: Directory, workspace: string, item: Item)
    requires !Directed(item)
    ensures Met(d, conn, workspace, [item], Fates(d.answers, directory, [item]), d)
  {
  }

  // ------------------------------------------------------------------
  // One item after another
  // ------------------------------------------------------------------

  lemma {:induction false} EntriesJoin(conn: Row, todo: seq<Item>, fates: seq<Fate>, more: seq<Item>, moreFates: seq<Fate>)
    requires |fates| == |todo| && |moreFates| == |more|
    ensures DropEntries(conn, todo + more, fates + moreFates)
         == DropEntries(conn, todo, fates) + DropEntries(conn, more, moreFates)
    decreases |todo|
  {
    if todo == [] {
      assert todo + more == more && fates + moreFates == moreFates;
    } else {
      EntriesJoin(conn, todo[1..], fates[1..], more, moreFates);
      assert (todo + more)[1..] == todo[1..] + more && (fates + moreFates)[1..] == fates[1..] + moreFates;
    }
  }

  lemma {:induction false} KeysJoin(workspace: string, todo: seq<Item>, fates: seq<Fate>, more: seq<Item>, moreFates: seq<Fate>,
                                    answer: Answer)
    requires |fates| == |todo| && |moreFates| == |more|
    ensures KeysAnswered(workspace, todo + more, fates + moreFates, answer)
         == KeysAnswered(workspace, todo, fates, answer) + KeysAnswered(workspace, more, moreFates, answer)
    decreases |todo|
  {
    if todo == [] {
      assert todo + more == more && fates + moreFates == moreFates;
    } else {
      KeysJoin(workspace, todo[1..], fates[1..], more, moreFates, answer);
      assert (todo + more)[1..] == todo[1..] + more && (fates + moreFates)[1..] == fates[1..] + moreFates;
    }
  }

  lemma {:induction false} AskedJoin(fates: seq<Fate>, more: seq<Fate>)
    ensures Asked(fates + more) == Asked(fates) + Asked(more)
    decreases |fates|
  {
    if fates == [] {
      assert fates + more == more;
    } else {
      AskedJoin(fates[1..], more);
      assert (fates + more)[1..] == fates[1..] + more;
    }
  }

  lemma LeftJoin<T>(script: seq<T>, n: nat, k: nat)
    ensures LeftOf(LeftOf(script, n), k) == LeftOf(script, n + k)
  {
  }

  lemma WritesJoin(writes: seq<Option<Error>>, n: nat, k: nat)
    requires WritesPass(writes, n) && WritesPass(LeftOf(writes, n), k)
    ensures WritesPass(writes, n + k)
  {
    forall i | n <= i < n + k && i < |writes| ensures writes[i].None? {
      assert LeftOf(writes, n)[i - n] == writes[i];
    }
  }

  lemma TakenJoin(conn: Row, workspace: string, todo: seq<Item>, fates: seq<Fate>, more: seq<Item>, moreFates: seq<Fate>, r: Landed)
    requires |fates| == |todo| && |moreFates| == |more|
    requires TakenOver(conn, workspace, todo, fates, r) || TakenOver(conn, workspace, more, moreFates, r)
    ensures TakenOver(conn, workspace, todo + more, fates + moreFates, r)
  {
    if TakenOver(conn, workspace, more, moreFates, r) {
      var i :| 0 <= i < |more| && moreFates[i] == Answered(Accepted) && r == Landed(Key(workspace, more[i].id), conn.member, more[i]);
      var k := |todo| + i;
      assert (fates + moreFates)[k] == Answered(Accepted) && (todo + more)[k] == more[i];
    } else {
      var i :| 0 <= i < |todo| && fates[i] == Answered(Accepted) && r == Landed(Key(workspace, todo[i].id), conn.member, todo[i]);
      assert (fates + moreFates)[i] == Answered(Accepted) && (todo + more)[i] == todo[i];
    }
  }

  lemma LandedJoin(conn: Row, workspace: string, todo: seq<Item>, fates: seq<Fate>, more: seq<Item>, moreFates: seq<Fate>,
                   a: seq<Landed>, b: seq<Landed>, c: seq<Landed>)
    requires |fates| == |todo| && |moreFates| == |more| && a <= b <= c
    requires forall i :: |a| <= i < |b| ==> TakenOver(conn, workspace, todo, fates, b[i])
    requires forall i :: |b| <= i < |c| ==> TakenOver(conn, workspace, more, moreFates, c[i])
    ensures forall i :: |a| <= i < |c| ==> TakenOver(conn, workspace, todo + more, fates + moreFates, c[i])
  {
    forall i | |a| <= i < |c| ensures TakenOver(conn, workspace, todo + more, fates + moreFates, c[i]) {
      assert i < |b| ==> c[i] == b[i];
      TakenJoin(conn, workspace, todo, fates, more, moreFates, c[i]);
    }
  }

  /** Two stretches met one after the other are met as one. */
  lemma MetJoins(d: Desk, mid: Desk, conn: Row, workspace: string, todo: seq<Item>, fates: seq<Fate>,
                 more: seq<Item>, moreFates: seq<Fate>, e: Desk)
    requires |fates| == |todo| && |moreFates| == |more|
    requires Met(d, conn, workspace, todo, fates, mid) && Met(mid, conn, workspace, more, moreFates, e)
    ensures Met(d, conn, workspace, todo + more, fates + moreFates, e)
  {
    EntriesJoin(conn, todo, fates, more, moreFates);
    KeysJoin(workspace, todo, fates, more, moreFates, Accepted);
    KeysJoin(workspace, todo, fates, more, moreFates, Skipped);
    AskedJoin(fates, moreFates);
    LeftJoin(d.answers, Asked(fates), Asked(moreFates));
    var n, k := |DropEntries(conn, todo, fates)|, |DropEntries(conn, more, moreFates)|;
    LeftJoin(d.writes, n, k);
    WritesJoin(d.writes, n, k);
    LandedJoin(conn, workspace, todo, fates, more, moreFates, d.landed, mid.landed, e.landed);
    LedgerJoins(d.table, mid.table, e.table, DropEntries(conn, todo, fates), DropEntries(conn, more, moreFates));
  }

  lemma LedgerJoins(a: Table, b: Table, c: Table, first: seq<Entry>, second: seq<Entry>)
    requires b == a.(ledger := a.ledger + first) && c == b.(ledger := b.ledger + second)
    ensures c == a.(ledger := a.ledger + (first + second))
  {
    assert (a.ledger + first) + second == a.ledger + (first + second);
  }

  lemma NothingMet(d: Desk, conn: Row, workspace: string)
    ensures Met(d, conn, workspace, [], [], d)
  {
    assert d.table.ledger + [] == d.table.ledger;
    assert LeftOf(d.writes, 0) == d.writes && LeftOf(d.answers, 0) == d.answers;
  }

  /** What is left to do after a first item. */
  lemma StopsLater(d: Desk, mid: Desk, conn: Row, workspace: string, todo: seq<Item>, fates: seq<Fate>,
                   e: Desk, done: nat, error: Option<Error>)
    requires todo != [] && |fates| == |todo|
    requires Met(d, conn, workspace, todo[..1], fates[..1], mid)
    requires LandedAs(mid, conn, workspace, todo[1..], fates[1..], e, done, error)
    ensures LandedAs(d, conn, workspace, todo, fates, e, done + 1, error)
  {
    match error
    case None =>
      assert todo[..1] + todo[1..] == todo && fates[..1] + fates[1..] == fates;
      MetJoins(d, mid, conn, workspace, todo[..1], fates[..1], todo[1..], fates[1..], e);
    case Some(cause) =>
      var first, rest := DropEntries(conn, todo[..1], fates[..1]), DropEntries(conn, todo[1..][..done], fates[1..][..done]);
      assert todo[..1] + todo[1..][..done] == todo[..done + 1] && fates[..1] + fates[1..][..done] == fates[..done + 1];
      EntriesJoin(conn, todo[..1], fates[..1], todo[1..][..done], fates[1..][..done]);
      FailsLater(d.writes, |first|, |rest|, cause);
      var last :| Met(mid, conn, workspace, todo[1..][..done], fates[1..][..done], last)
                  && e == last.(answers := e.answers, writes := e.writes);
      MetJoins(d, mid, conn, workspace, todo[..1], fates[..1], todo[1..][..done], fates[1..][..done], last);
  }

  lemma FailsLater(writes: seq<Option<Error>>, n: nat, k: nat, error: Error)
    ensures WriteFails(LeftOf(writes, n), k, error) ==> WriteFails(writes, n + k, error)
  {
  }

  ghost predicate MeetsFates(d: Desk, conn: Row, directory: Directory, member: ProviderUser, todo: seq<Item>) {
    var (e, done, error) := LandAllOn(d, conn, directory, member, todo);
    LandedAs(d, conn, member.workspaceId, todo, Fates(d.answers, directory, todo), e, done, error)
  }

  /** The first item's turn. */
  function FirstOn(d: Desk, conn: Row, directory: Directory, member: ProviderUser, item: Item): (Desk, Option<Error>) {
    if Directed(item) then LandOneOn(d, conn, directory, member, item) else (d, None)
  }

  /**
   EVERY ITEM MEETS ITS FATE. A landing that fails of nothing met no refusal but of
   invalid records; the ledger gained one entry for each item without an address or
   with such a refusal, under its reason and in order, and no other; the core holds
   exactly what it accepted more, and skipped what it skipped. A landing that fails
   has done this up to one item, and fails of the core's own refusal of that one, or
   of the write that was to record its drop.
   */
  lemma {:induction false} EveryItemMeetsItsFate(d: Desk, conn: Row, directory: Directory, member: ProviderUser, todo: seq<Item>)
    ensures MeetsFates(d, conn, directory, member, todo)
    decreases |todo|
  {
    if todo == [] {
      NothingMet(d, conn, member.workspaceId);
    } else {
      var (mid, error) := FirstOn(d, conn, directory, member, todo[0]);
      FirstMeets(d, conn, directory, member, todo);
      if error.Some? {
        StopsNow(d, conn, member.workspaceId, todo, Fates(d.answers, directory, todo), mid, error.value);
        LandAllStops(d, conn, directory, member, todo);
      } else {
        EveryItemMeetsItsFate(mid, conn, directory, member, todo[1..]);
        var (e, done, failure) := LandAllOn(mid, conn, directory, member, todo[1..]);
        GoesOn(d, mid, conn, directory, member.workspaceId, todo, e, done, failure);
        LandAllGoesOn(d, conn, directory, member, todo);
      }
    }
  }

  lemma LandAllStops(d: Desk, conn: Row, directory: Directory, member: ProviderUser, todo: seq<Item>)
    requires todo != [] && FirstOn(d, conn, directory, member, todo[0]).1.Some?
    ensures var (mid, error) := FirstOn(d, conn, directory, member, todo[0]);
            LandAllOn(d, conn, directory, member, todo) == (mid, 0, error)
  {
  }

  lemma LandAllGoesOn(d: Desk, conn: Row, directory: Directory, member: ProviderUser, todo: seq<Item>)
    requires todo != [] && FirstOn(d, conn, directory, member, todo[0]).1.None?
    ensures var mid := FirstOn(d, conn, directory, member, todo[0]).0;
            var (e, done, error) := LandAllOn(mid, conn, directory, member, todo[1..]);
            LandAllOn(d, conn, directory, member, todo) == (e, done + 1, error)
  {
  }

  lemma GoesOn(d: Desk, mid: Desk, conn: Row, directory: Directory, workspace: string, todo: seq<Item>,
               e: Desk, done: nat, error: Option<Error>)
    requires todo != []
    requires var fates := Fates(d.answers, directory, todo);
             && Met(d, conn, workspace, todo[..1], fates[..1], mid)
             && mid.answers == LeftOf(d.answers, Asked(fates[..1]))
    requires LandedAs(mid, conn, workspace, todo[1..], Fates(mid.answers, directory, todo[1..]), e, done, error)
    ensures LandedAs(d, conn, workspace, todo, Fates(d.answers, directory, todo), e, done + 1, error)
  {
    NextFate(d.answers, directory, todo);
    StopsLater(d, mid, conn, workspace, todo, Fates(d.answers, directory, todo), e, done, error);
  }

  lemma StopsNow(d: Desk, conn: Row, workspace: string, todo: seq<Item>, fates: seq<Fate>, e: Desk, cause: Error)
    requires todo != [] && |fates| == |todo| && LandedOne(d, conn, workspace, todo[0], fates[0], e, Some(cause))
    ensures LandedAs(d, conn, workspace, todo, fates, e, 0, Some(cause))
  {
    NothingMet(d, conn, workspace);
    assert todo[..0] == [] && fates[..0] == [];
  }

  lemma FirstMeets(d: Desk, conn: Row, directory: Directory, member: ProviderUser, todo: seq<Item>)
    requires todo != []
    ensures var (mid, error) := FirstOn(d, conn, directory, member, todo[0]);
            var fates := Fates(d.answers, directory, todo);
            && LandedOne(d, conn, member.workspaceId, todo[0], fates[0], mid, error)
            && [todo[0]] == todo[..1] && [fates[0]] == fates[..1]
            && (error.None? ==> mid.answers == LeftOf(d.answers, Asked(fates[..1])))
  {
    var fates := Fates(d.answers, directory, todo);
    assert todo[..1] == [todo[0]] && fates[..1] == [fates[0]];
    assert fates[..1] == Fates(d.answers, directory, [todo[0]]) by {
      NextFate(d.answers, directory, todo);
    }
    if Directed(todo[0]) {
      LandOneMeets(d, conn, directory, member, todo[0]);
    } else {
      FilteredMeets(d, conn, directory, member.workspaceId, todo[0]);
    }
  }

  // ------------------------------------------------------------------
  // What follows for one item
  // ------------------------------------------------------------------

  /**
   A refusal that is not of the record stops the landing, there or earlier; there,
   of exactly that refusal.
   */
  lemma RefusalStops(d: Desk, conn: Row, directory: Directory, member: ProviderUser, todo: seq<Item>, i: nat)
    requires i < |todo| && Stops(Fates(d.answers, directory, todo)[i])
    ensures var (_, done, error) := LandAllOn(d, conn, directory, member, todo);
            && error.Some? && done <= i
            && (done == i ==> error.value == Fates(d.answers, directory, todo)[i].answer.error)
  {
    var fates := Fates(d.answers, directory, todo);
    EveryItemMeetsItsFate(d, conn, directory, member, todo);
    var (e, done, error) := LandAllOn(d, conn, directory, member, todo);
    assert fates[i] in fates;
    Within(fates, i, done);
  }

  lemma Within<T>(s: seq<T>, i: nat, n: nat)
    requires i < |s| && n <= |s|
    ensures i < n ==> s[i] in s[..n]
  {
    assert i < n ==> s[..n][i] == s[i];
  }

  /** Of items with ids of their own, one that is not dropped has no entry. */
  lemma NotDropped(conn: Row, todo: seq<Item>, fates: seq<Fate>, i: nat)
    requires |fates| == |todo| && i < |todo| && !Drops(fates[i])
    requires forall j :: 0 <= j < |todo| && j != i ==> todo[j].id != todo[i].id
    ensures forall entry :: entry in DropEntries(conn, todo, fates) ==>
              entry.detail.Some? && entry.detail.value.notification != todo[i].id
  {
    forall entry | entry in DropEntries(conn, todo, fates)
      ensures entry.detail.Some? && entry.detail.value.notification != todo[i].id
    {
      DropEntriesAre(conn, todo, fates, entry);
    }
  }

  /** An item the core accepts is in the core under its key, and is not dropped. */
  lemma AcceptedLands(d: Desk, conn: Row, workspace: string, todo: seq<Item>, fates: seq<Fate>, e: Desk, i: nat)
    requires |fates| == |todo| && Met(d, conn, workspace, todo, fates, e)
    requires i < |todo| && fates[i] == Answered(Accepted)
    requires forall j :: 0 <= j < |todo| && j != i ==> todo[j].id != todo[i].id
    ensures Key(workspace, todo[i].id) in KeysOf(e.landed)
    ensures forall entry :: entry in e.table.ledger[|d.table.ledger|..] ==>
              entry.detail.Some? && entry.detail.value.notification != todo[i].id
  {
    KeysAnsweredAre(workspace, todo, fates, Accepted, Key(workspace, todo[i].id));
    NotDropped(conn, todo, fates, i);
    assert e.table.ledger[|d.table.ledger|..] == DropEntries(conn, todo, fates);
  }
}
