/**
 What becomes of everything a whole poll brings in, and what a poll that fails
 failed of: each told from what the poll met.
 */
module RelayPollFates {
  import opened Wrappers
  import opened RelayErrors
  import opened RelayFeed
  import opened RelayInbox
  import opened RelayCursor
  import opened RelayRecord
  import opened RelayTable
  import opened RelayPollSteps
  import opened RelayLanding
  import opened RelayPoll
  import opened RelayFates

  // ------------------------------------------------------------------
  // What a walk fails of
  // ------------------------------------------------------------------

  /** The turns that have been answered by the time the script stands at `after`. */
  function Used(turns: seq<Turn>, after: seq<Turn>): seq<Turn> {
    if |after| <= |turns| then turns[..|turns| - |after|] else []
  }

  predicate AllAnswer(turns: seq<Turn>) { forall turn :: turn in turns ==> turn.fault.Answers? }

  /** A page that may hold nothing and still say there is more. */
  predicate MayBeHollow(fault: Fault) { fault.Answers? && (fault.size == 0 || fault.more) }

  /** The failure a turn can end a walk with: its own, or that its page moves the walk nowhere. */
  predicate TurnFails(turn: Turn, error: Error) {
    turn.fault == Fails(error) || (MayBeHollow(turn.fault) && error == {ErrProvider})
  }

  /** Every turn was answered but the last, and that one ended the walk. */
  predicate LastFails(turns: seq<Turn>, error: Error) {
    turns != [] && AllAnswer(turns[..|turns| - 1]) && TurnFails(turns[|turns| - 1], error)
  }

  /** The turns used, and what the walk came to. */
  ghost predicate Explains(turns: seq<Turn>, after: seq<Turn>, failure: Option<Error>) {
    && |after| <= |turns| && after == turns[|turns| - |after|..]
    && match failure
       case None => AllAnswer(Used(turns, after))
       case Some(error) => LastFails(Used(turns, after), error)
  }

  function FailureOf<T>(result: Result<T, Error>): Option<Error> {
    match result case Ok(_) => None case Err(error) => Some(error)
  }

  /** Only a page that holds nothing and says there is more moves a walk nowhere. */
  lemma HollowPage(walk: WalkResult, feed: Feed, before: int, size: nat, more: bool, until: int)
    requires AbsorbPage(walk, PageUnder(feed, before, size, more), until).Failed?
    ensures AbsorbPage(walk, PageUnder(feed, before, size, more), until).error == {ErrProvider}
    ensures size == 0 || more
  {
  }

  /** A turn that answers, or that ends the walk, is told from itself. */
  lemma OneTurnExplains(turns: seq<Turn>, failure: Option<Error>)
    requires turns != []
    requires match failure case None => turns[0].fault.Answers? case Some(error) => TurnFails(turns[0], error)
    ensures Explains(turns, turns[1..], failure)
  {
    assert Used(turns, turns[1..]) == [turns[0]];
  }

  lemma TurnExplains(p: Provider, until: int, before: int, walk: WalkResult)
    ensures var (after, fetched) := Fetch(p, until, before, walk);
            Explains(p.turns, after.turns, FailureOf(WalkedBy(fetched)))
  {
    if p.turns == [] {
      if AbsorbPage(walk, PageOf(p.feed, before), until).Failed? {
        HollowPage(walk, p.feed, before, MAX_PAGE_SIZE, false, until);
      }
    } else {
      var feed, fault := p.feed + p.turns[0].arrivals, p.turns[0].fault;
      if fault.Answers? {
        var fetched := AbsorbPage(walk, PageUnder(feed, before, fault.size, fault.more), until);
        if fetched.Failed? {
          HollowPage(walk, feed, before, fault.size, fault.more, until);
        }
        OneTurnExplains(p.turns, FailureOf(WalkedBy(fetched)));
      } else {
        OneTurnExplains(p.turns, Some(fault.error));
      }
    }
  }

  /** What a turn makes of its walk. */
  function WalkedBy(fetched: Fetched): Result<WalkResult, Error> {
    if fetched.Failed? then Err(fetched.error) else Ok(fetched.walk)
  }

  lemma Sliced<T>(a: seq<T>, n: nat, k: nat)
    requires n + k <= |a|
    ensures a[..n + k] == a[..n] + a[n..][..k] && a[n + k..] == a[n..][k..]
  {
  }

  lemma ExplainsOn(a: seq<Turn>, b: seq<Turn>, c: seq<Turn>, failure: Option<Error>)
    requires Explains(a, b, None) && Explains(b, c, failure)
    ensures Explains(a, c, failure)
  {
    var n, k := |a| - |b|, |b| - |c|;
    Sliced(a, n, k);
    assert c == a[n..][k..] && |a| - |c| == n + k;
    assert Used(a, b) == a[..n] && Used(b, c) == a[n..][..k] && Used(a, c) == a[..n + k];
  }

  /** A walk fails exactly of what the turn it ended at made it fail of. */
  lemma {:induction false} WalkFailsOfItsTurns(p: Provider, until: int, before: int, budget: nat, walk: WalkResult)
    ensures var (after, walked) := Walk(p, until, before, budget, walk);
            Explains(p.turns, after.turns, FailureOf(walked))
    decreases budget
  {
    if budget > 0 {
      TurnExplains(p, until, before, walk);
      var (mid, fetched) := Fetch(p, until, before, walk);
      if fetched.Continues? {
        WalkFailsOfItsTurns(mid, until, fetched.walk.oldest, budget - 1, fetched.walk);
        var (after, walked) := Walk(mid, until, fetched.walk.oldest, budget - 1, fetched.walk);
        ExplainsOn(p.turns, mid.turns, after.turns, FailureOf(walked));
        assert Walk(p, until, before, budget, walk) == (after, walked);
      } else {
        assert Walk(p, until, before, budget, walk) == (mid, WalkedBy(fetched));
      }
    }
  }

  // ------------------------------------------------------------------
  // What a landing comes to
  // ------------------------------------------------------------------

  /** The senders could be told, and every item met its fate. */
  ghost predicate AllMet(d: Desk, conn: Row, workspace: string, users: Directory, todo: seq<Item>, e: Desk) {
    && (AsksAnyone(todo) ==> users.fault.None?)
    && Met(d, conn, workspace, todo, Fates(d.answers, users, todo), e)
  }

  /** A landing fails of its lookup, of a refusal that is not of an invalid record, or of a drop it could not write. */
  ghost predicate LandingFails(d: Desk, users: Directory, todo: seq<Item>, error: Error) {
    || (AsksAnyone(todo) && users.fault == Some(error))
    || (Refused(error) in d.answers && ErrInvalid !in error)
    || Some(error) in d.writes
  }

  lemma {:induction false} FatesAreAnswers(answers: seq<Answer>, directory: Directory, todo: seq<Item>, i: nat)
    requires i < |todo| && Fates(answers, directory, todo)[i].Answered?
    ensures var answer := Fates(answers, directory, todo)[i].answer; answer == Accepted || answer in answers
    decreases |todo|
  {
    if i > 0 {
      var later := if FateNow(answers, directory, todo[0]).Answered? then LeftOf(answers, 1) else answers;
      FatesAreAnswers(later, directory, todo[1..], i - 1);
    }
  }

  lemma LandWalkMeets(d: Desk, users: Directory, conn: Row, member: ProviderUser, items: seq<Item>)
    ensures var (e, landed) := LandWalkOn(d, users, conn, member, items);
            && (landed.Ok? ==> AllMet(d, conn, member.workspaceId, users, SortById(items), e))
            && (landed.Err? ==> LandingFails(d, users, SortById(items), landed.error))
  {
    var todo := SortById(items);
    var fates := Fates(d.answers, users, todo);
    EveryItemMeetsItsFate(d, conn, users, member, todo);
    var (e, done, error) := LandAllOn(d, conn, users, member, todo);
    if error.Some? && Stops(fates[done]) {
      FatesAreAnswers(d.answers, users, todo, done);
    }
  }

  // ------------------------------------------------------------------
  // What a poll comes to
  // ------------------------------------------------------------------

  /** What a poll of this row finds above its newest decided id. */
  function NewestFound(p: Provider, conn: Row): (Provider, Result<WalkResult, Error>) {
    Walk(p, conn.cursor.ForwardFrom(), 0, conn.cursor.Budget(), NOTHING_FETCHED)
  }

  lemma LeftWereThere<T>(script: seq<T>, n: nat, x: T)
    requires x in LeftOf(script, n)
    ensures x in script
  {
  }

  lemma LandingFailedEarlier(d: Desk, mid: Desk, conn: Row, workspace: string, todo: seq<Item>, fates: seq<Fate>,
                             users: Directory, more: seq<Item>, error: Error)
    requires |fates| == |todo| && Met(d, conn, workspace, todo, fates, mid) && LandingFails(mid, users, more, error)
    ensures LandingFails(d, users, more, error)
  {
    if Refused(error) in mid.answers {
      LeftWereThere(d.answers, Asked(fates), Refused(error));
    }
    if Some(error) in mid.writes {
      LeftWereThere(d.writes, |DropEntries(conn, todo, fates)|, Some(error));
    }
  }

  lemma RegionComes(d: Desk, p: Provider, users: Directory, conn: Row, member: ProviderUser, until: int, from: int, budget: nat)
    ensures var (after, walked) := Walk(p, until, from, budget, NOTHING_FETCHED);
            Explains(p.turns, after.turns, FailureOf(walked))
            && (walked.Ok? ==>
                  var (e, landed) := LandWalkOn(d, users, conn, member, walked.value.items);
                  && (landed.Ok? ==> AllMet(d, conn, member.workspaceId, users, SortById(walked.value.items), e))
                  && (landed.Err? ==> LandingFails(d, users, SortById(walked.value.items), landed.error)))
  {
    WalkFailsOfItsTurns(p, until, from, budget, NOTHING_FETCHED);
    var walked := Walk(p, until, from, budget, NOTHING_FETCHED).1;
    if walked.Ok? {
      LandWalkMeets(d, users, conn, member, walked.value.items);
    }
  }

  /** What the newest region brings, if its walk succeeds. */
  function FoundIn(walked: Result<WalkResult, Error>): seq<Item> {
    if walked.Ok? then SortById(walked.value.items) else []
  }

  /** What one region of a poll comes to. */
  ghost predicate RegionAnswer(d: Desk, p: Provider, users: Directory, conn: Row, workspace: string,
                               e: Desk, after: Provider, found: seq<Item>, failure: Option<Error>) {
    && (failure.None? ==> AllMet(d, conn, workspace, users, found, e) && Explains(p.turns, after.turns, None))
    && (failure.Some? ==> LandingFails(d, users, found, failure.value) || Explains(p.turns, after.turns, failure))
  }

  lemma NewestComes(d: Desk, p: Provider, users: Directory, conn: Row, member: ProviderUser)
    ensures var (e, after, newest) := ReadNewestOn(d, p, users, conn, member);
            RegionAnswer(d, p, users, conn, member.workspaceId, e, after, FoundIn(NewestFound(p, conn).1), FailureOf(newest))
  {
    RegionComes(d, p, users, conn, member, conn.cursor.ForwardFrom(), 0, conn.cursor.Budget());
  }

  lemma BacklogComes(d: Desk, p: Provider, users: Directory, conn: Row, member: ProviderUser, at: Cursor, budget: nat)
    ensures var (e, after, moved) := FillGapOn(d, p, users, conn, member, at, budget);
            RegionAnswer(d, p, users, conn, member.workspaceId, e, after,
                         FoundIn(Walk(p, at.floor, at.gap, budget, NOTHING_FETCHED).1), FailureOf(moved))
  {
    RegionComes(d, p, users, conn, member, at.floor, at.gap, budget);
  }

  /** What a poll brings of its backlog, where it gets that far. */
  function BacklogFound(d: Desk, p: Provider, around: Surroundings, conn: Row, member: ProviderUser): seq<Item> {
    var (_, half, newest) := ReadNewestOn(d, p, around.newest, conn, member);
    if newest.Ok? && newest.value.1 > 0
    then FoundIn(Walk(half, newest.value.0.floor, newest.value.0.gap, newest.value.1, NOTHING_FETCHED).1)
    else []
  }

  /** Everything a poll brought has met its fate, the newest region first. */
  ghost predicate EverythingMet(d: Desk, p: Provider, around: Surroundings, conn: Row, member: ProviderUser, end: Desk) {
    var mid := ReadNewestOn(d, p, around.newest, conn, member).0;
    && AllMet(d, conn, member.workspaceId, around.newest, FoundIn(NewestFound(p, conn).1), mid)
    && AllMet(mid, conn, member.workspaceId, around.backlog, BacklogFound(d, p, around, conn, member), end)
  }

  /** What deciding fails of. */
  ghost predicate DecidingFails(d: Desk, p: Provider, after: Provider, around: Surroundings, conn: Row, member: ProviderUser, error: Error) {
    || LastFails(Used(p.turns, after.turns), error)
    || LandingFails(d, around.newest, FoundIn(NewestFound(p, conn).1), error)
    || LandingFails(d, around.backlog, BacklogFound(d, p, around, conn, member), error)
  }

  lemma DecidingComes(d: Desk, p: Provider, around: Surroundings, conn: Row, member: ProviderUser)
    ensures var (e, after, decided) := DecideOn(d, p, around, conn, member);
            && (decided.Ok? ==> EverythingMet(d, p, around, conn, member, e) && AllAnswer(Used(p.turns, after.turns)))
            && (decided.Err? ==> DecidingFails(d, p, after, around, conn, member, decided.error))
  {
    var (mid, half, newest) := ReadNewestOn(d, p, around.newest, conn, member);
    NewestComes(d, p, around.newest, conn, member);
    if newest.Ok? {
      var found := FoundIn(NewestFound(p, conn).1);
      if newest.value.1 > 0 {
        BacklogComes(mid, half, around.backlog, conn, member, newest.value.0, newest.value.1);
        var (e, after, moved) := FillGapOn(mid, half, around.backlog, conn, member, newest.value.0, newest.value.1);
        var more := BacklogFound(d, p, around, conn, member);
        assert RegionAnswer(mid, half, around.backlog, conn, member.workspaceId, e, after, more, FailureOf(moved));
        ThenBacklog(d, mid, p, half, after, around, conn, member.workspaceId, found, more, e, FailureOf(moved));
      } else {
        NothingMet(mid, conn, member.workspaceId);
      }
    }
  }

  /** A backlog read after a newest region that failed of nothing: its failure is the poll's. */
  lemma ThenBacklog(d: Desk, mid: Desk, p: Provider, half: Provider, after: Provider, around: Surroundings, conn: Row,
                    workspace: string, found: seq<Item>, more: seq<Item>, e: Desk, failure: Option<Error>)
    requires AllMet(d, conn, workspace, around.newest, found, mid) && Explains(p.turns, half.turns, None)
    requires RegionAnswer(mid, half, around.backlog, conn, workspace, e, after, more, failure)
    ensures failure.None? ==> AllAnswer(Used(p.turns, after.turns)) && AllMet(mid, conn, workspace, around.backlog, more, e)
    ensures failure.Some? ==>
              LandingFails(d, around.backlog, more, failure.value) || LastFails(Used(p.turns, after.turns), failure.value)
  {
    if Explains(half.turns, after.turns, failure) {
      ExplainsOn(p.turns, half.turns, after.turns, failure);
    }
    if failure.Some? && LandingFails(mid, around.backlog, more, failure.value) {
      LandingFailedEarlier(d, mid, conn, workspace, found, Fates(d.answers, around.newest, found), around.backlog, more, failure.value);
    }
  }

  /**
   A WHOLE POLL. When it succeeds no request, lookup or write of it failed, the core
   refused it nothing but invalid records, and everything it brought in has met its
   fate: what the ledger, the core and its breadcrumbs gained is exactly what the
   core's answers and the missing addresses make of it. When it fails, it fails of
   the account's own error, of the request its walk ended at, of a lookup, of the
   core's own refusal, of a drop it could not write or of the saving write: this
   error and no other is what is noted on the row.
   */
  lemma PollMeetsItsFates(d: Desk, p: Provider, around: Surroundings, conn: Row)
    ensures var (e, after, polled) := PollOn(d, p, around, conn);
            && (polled.Ok? ==>
                  && around.member.Ok? && around.saving.None? && AllAnswer(Used(p.turns, after.turns))
                  && var member, end := around.member.value, DecideOn(d, p, around, conn, around.member.value).0;
                     && EverythingMet(d, p, around, conn, member, end)
                     && e == end.(table := SaveCursorOn(end.table, conn, member.name, member.workspaceId, polled.value)))
            && (polled.Err? ==>
                  if around.member.Err? then polled.error == around.member.error && e == d && after == p
                  else || DecidingFails(d, p, after, around, conn, around.member.value, polled.error)
                       || around.saving == Some(polled.error))
  {
    if around.member.Ok? {
      DecidingComes(d, p, around, conn, around.member.value);
    }
  }
}
