/**
 One poll as it runs, step by step (extensions/relay-probe/poll.go): a walk of
 the newest region, the landing of what it brought, a walk into the backlog, its
 landing, and the write of the cursor. Anything may happen between two steps.
 */
module RelayPollSteps {
  import opened RelayErrors
  import opened RelayFeed
  import opened RelayInbox
  import opened RelayWalk
  import opened RelayCursor
  import opened RelayTable

  datatype Phase =
    | Walking(forward: bool, at: Cursor, budget: nat, walk: WalkResult)
    | Landing(forward: bool, at: Cursor, result: WalkResult, todo: seq<Item>, done: nat)
    | Saving(at: Cursor)
    | Noting(cause: Error)

  /**
   A poll in flight: the row it read, the requests it made, whether every page that
   reported more was full, and where it is.
   */
  datatype Poll = Poll(conn: Row, baseline: int, requests: nat, full: bool, phase: Phase)

  function Insert(item: Item, sorted: seq<Item>): (r: seq<Item>)
    ensures multiset(r) == multiset{item} + multiset(sorted)
  {
    if sorted == [] || item.id <= sorted[0].id then [item] + sorted
    else
      assert sorted == [sorted[0]] + sorted[1..];
      [sorted[0]] + Insert(item, sorted[1..])
  }

  /** The items of a walk in the order they land: oldest first. */
  function SortById(items: seq<Item>): (r: seq<Item>)
    ensures multiset(r) == multiset(items)
  {
    if items == [] then []
    else
      assert items == [items[0]] + items[1..];
      Insert(items[0], SortById(items[1..]))
  }

  ghost predicate SortedById(items: seq<Item>) {
    forall i, j :: 0 <= i < j < |items| ==> items[i].id <= items[j].id
  }

  lemma {:induction false} InsertSorts(item: Item, sorted: seq<Item>)
    requires SortedById(sorted)
    ensures SortedById(Insert(item, sorted))
  {
    if sorted != [] && sorted[0].id < item.id {
      var rest := Insert(item, sorted[1..]);
      InsertSorts(item, sorted[1..]);
      forall it | it in rest ensures sorted[0].id <= it.id {
        assert it in multiset(rest);
      }
    }
  }

  lemma {:induction false} SortByIdSorts(items: seq<Item>)
    ensures SortedById(SortById(items))
  {
    if items != [] {
      SortByIdSorts(items[1..]);
      InsertSorts(items[0], SortById(items[1..]));
    }
  }

  /** The highest id landing decides about: zero when the walk brought nothing. */
  function HighestOf(todo: seq<Item>): int {
    if todo == [] then 0 else todo[|todo| - 1].id
  }

  function Until(forward: bool, at: Cursor): int { if forward then at.ForwardFrom() else at.floor }

  function From(forward: bool, at: Cursor): int { if forward then 0 else at.gap }

  function Before(from: int, walk: WalkResult): int { if walk.items == [] then from else walk.oldest }

  function BegunPhase(conn: Row): Phase {
    Walking(true, conn.cursor, conn.cursor.Budget(), NOTHING_FETCHED)
  }

  function Begun(conn: Row, baseline: int): Poll {
    Poll(conn, baseline, 0, true, BegunPhase(conn))
  }

  function Walked(phase: Phase, result: WalkResult): Phase
    requires phase.Walking?
  {
    Landing(phase.forward, phase.at, result, SortById(result.items), 0)
  }

  /** Where one page leaves a walk: going on, or landing what it brought. */
  function PagedPhase(phase: Phase, fetched: Fetched): Phase
    requires phase.Walking?
  {
    match fetched
    case Finished(done) => Walked(phase, done)
    case Continues(more) =>
      if phase.budget <= 1 then Walked(phase, more) else phase.(budget := phase.budget - 1, walk := more)
    case Failed(error) => Noting(error)
  }

  /** The poll after one page. */
  function Paged(p: Poll, page: Page): Poll
    requires p.phase.Walking?
  {
    var fetched := AbsorbPage(p.phase.walk, page, Until(p.phase.forward, p.phase.at));
    p.(requests := p.requests + 1, full := p.full && (page.hasMore ==> |page.items| == MAX_PAGE_SIZE),
       phase := PagedPhase(p.phase, fetched))
  }

  /** The poll once one more item is decided about. */
  function DecidedOne(p: Poll): Poll
    requires p.phase.Landing?
  {
    p.(phase := p.phase.(done := p.phase.done + 1))
  }

  /** Where one walk and its landing leave the poll: on to the backlog with what budget is left, or ready to save. */
  function ConcludedPhase(phase: Phase): Phase
    requires phase.Landing?
  {
    if phase.forward then
      var at := AfterForward(phase.at, HighestOf(phase.todo), phase.result);
      var budget := BackfillBudget(at, phase.result.items, phase.at.Budget());
      if budget > 0 then Walking(false, at, budget, NOTHING_FETCHED) else Saving(at)
    else Saving(AfterBackfill(phase.at, phase.result))
  }

  /** The poll once everything a walk brought is decided about. */
  function Concluded(p: Poll): Poll
    requires p.phase.Landing?
  {
    p.(baseline := if p.phase.forward then BaselineAfter(p.phase.at, p.baseline, p.phase.result) else p.baseline,
       phase := ConcludedPhase(p.phase))
  }

  // ------------------------------------------------------------------
  // What every phase keeps
  // ------------------------------------------------------------------

  /** A cursor the poll may rely on: well shaped, issued by this feed, and all it has passed decided. */
  ghost predicate Sound(feed: Feed, decided: set<Item>, baseline: int, c: Cursor) {
    c.Shape() && Issued(feed, c) && Covers(feed, decided, baseline, c)
  }

  /** A walk in progress: a hole-free slice of full pages, under `from` when the walk resumes there. */
  ghost predicate WalkSound(feed: Feed, until: int, from: int, walk: WalkResult) {
    && !walk.closed
    && (walk.items == [] ==> walk.oldest == 0)
    && (walk.items != [] ==> SliceUnder(feed, until, from, CountBelow(feed, walk.oldest), walk))
  }

  ghost predicate SliceUnder(feed: Feed, until: int, from: int, lo: nat, walk: WalkResult) {
    Slice(feed, until, lo, lo + |walk.items|, walk) && (from > 0 ==> lo + |walk.items| == CountBelow(feed, from))
  }

  ghost predicate LandingSound(feed: Feed, decided: set<Item>, phase: Phase)
    requires phase.Landing?
  {
    && Complete(feed, Until(phase.forward, phase.at),
                if phase.forward then HighestOf(phase.todo) else phase.at.gap - 1, phase.result)
    && multiset(phase.todo) == multiset(phase.result.items)
    && phase.done <= |phase.todo|
    && forall i :: 0 <= i < phase.done ==> phase.todo[i] in decided
  }

  /** The most requests a poll of this budget makes over both its walks: one short of two budgets. */
  function Twice(budget: nat): int { 2 * budget - 1 }

  /** The pages a poll has asked for and may still ask for, whatever pages it is answered. */
  ghost predicate InTwice(p: Poll) {
    var budget := p.conn.cursor.Budget();
    match p.phase
    case Walking(forward, _, left, _) => 0 < left && p.requests + left <= if forward then budget else Twice(budget)
    case Landing(forward, _, _, _, _) => 0 < p.requests <= if forward then budget else Twice(budget)
    case Saving(_) => 0 < p.requests <= Twice(budget)
    case Noting(_) => p.requests <= Twice(budget)
  }

  /** While its pages are full, they never exceed its budget. */
  ghost predicate InBudget(p: Poll) {
    var budget := p.conn.cursor.Budget();
    && InTwice(p)
    && (p.full ==> match p.phase
          case Walking(forward, _, left, walk) =>
            p.requests + left <= budget && (forward ==> |walk.items| == p.requests * MAX_PAGE_SIZE)
          case Landing(forward, _, result, _, _) =>
            p.requests <= budget && (forward ==> p.requests <= Spent(result.items))
          case Saving(_) => p.requests <= budget
          case Noting(_) => p.requests <= budget)
  }

  /** The cursor a walk works from: the one the poll read, or that one moved by the forward walk. */
  ghost predicate AtSound(feed: Feed, decided: set<Item>, p: Poll, forward: bool, at: Cursor) {
    && (if forward then at == p.conn.cursor else at.Unread())
    && Sound(feed, decided, p.baseline, at)
    && Advances(p.conn.cursor, at)
  }

  ghost predicate PhaseSound(feed: Feed, decided: set<Item>, p: Poll) {
    match p.phase
    case Walking(forward, at, _, walk) =>
      AtSound(feed, decided, p, forward, at) && WalkSound(feed, Until(forward, at), From(forward, at), walk)
    case Landing(forward, at, _, _, _) =>
      AtSound(feed, decided, p, forward, at) && LandingSound(feed, decided, p.phase)
    case Saving(at) => Sound(feed, decided, p.baseline, at) && Advances(p.conn.cursor, at)
    case Noting(_) => true
  }

  ghost predicate PollSound(feed: Feed, decided: set<Item>, p: Poll) {
    && Ascending(feed)
    && Sound(feed, decided, p.baseline, p.conn.cursor)
    && InBudget(p)
    && PhaseSound(feed, decided, p)
  }

  lemma BegunSound(feed: Feed, decided: set<Item>, conn: Row, baseline: int)
    requires Ascending(feed) && Sound(feed, decided, baseline, conn.cursor)
    ensures PollSound(feed, decided, Begun(conn, baseline))
  {
  }

  lemma DecidedOneSound(feed: Feed, decided: set<Item>, p: Poll)
    requires PollSound(feed, decided, p) && p.phase.Landing? && p.phase.done < |p.phase.todo|
    requires p.phase.todo[p.phase.done] in decided
    ensures PollSound(feed, decided, DecidedOne(p))
  {
  }

  lemma ConcludedSound(feed: Feed, decided: set<Item>, p: Poll)
    requires PollSound(feed, decided, p) && p.phase.Landing? && p.phase.done == |p.phase.todo|
    ensures PollSound(feed, decided, Concluded(p))
  {
    var phase := p.phase;
    forall it | it in phase.result.items ensures it in decided {
      assert it in multiset(phase.todo);
    }
    if phase.forward {
      HighestIsIssued(feed, phase);
      ForwardCovers(feed, decided, p.baseline, phase.at, HighestOf(phase.todo), phase.result);
      if phase.at.FirstPoll() {
        assert Covers(feed, decided, Concluded(p).baseline, phase.at);
      }
    } else {
      BackfillCovers(feed, decided, p.baseline, phase.at, phase.result);
    }
  }

  lemma HighestIsIssued(feed: Feed, phase: Phase)
    requires phase.Landing? && phase.forward
    requires multiset(phase.todo) == multiset(phase.result.items)
    requires Complete(feed, Until(true, phase.at), HighestOf(phase.todo), phase.result)
    ensures if phase.result.items == [] then HighestOf(phase.todo) == 0 else HighestOf(phase.todo) in Ids(feed)
  {
    assert |phase.todo| == |multiset(phase.todo)|;
    if phase.todo != [] {
      var last := phase.todo[|phase.todo| - 1];
      assert last in multiset(phase.result.items);
      assert last in phase.result.items;
    }
  }

  // ------------------------------------------------------------------
  // A page keeps the walk hole-free, and a finished walk skipped nothing
  // ------------------------------------------------------------------

  lemma HighestOfSlice(feed: Feed, lo: nat, hi: nat, items: seq<Item>)
    requires Ascending(feed) && NewestFirst(feed, lo, hi, items)
    ensures HighestOf(SortById(items)) == if lo == hi then 0 else feed[hi - 1].id
  {
    var todo := SortById(items);
    SortByIdSorts(items);
    assert |multiset(todo)| == |multiset(items)|;
    if lo < hi {
      assert items[0] in multiset(todo);
      var i :| 0 <= i < |todo| && todo[i] == items[0];
      var last := todo[|todo| - 1];
      assert last in multiset(items);
      var j :| 0 <= j < |items| && items[j] == last;
      assert HighestOf(todo) == last.id;
      assert feed[hi - 1].id == todo[i].id <= last.id == feed[hi - 1 - j].id;
    } else {
      assert todo == [];
    }
  }

  lemma SliceIsComplete(feed: Feed, until: int, lo: nat, hi: nat, result: WalkResult, highest: int)
    requires Ascending(feed) && Slice(feed, until, lo, hi, result)
    requires hi > 0 ==> feed[hi - 1].id <= highest
    requires hi < |feed| ==> highest < feed[hi].id
    requires if result.closed then lo > 0 ==> feed[lo - 1].id <= until else lo < hi
    ensures Complete(feed, until, highest, result)
  {
    forall it | it in result.items
      ensures it in feed && until < it.id && result.oldest <= it.id <= highest
    {
      var i :| 0 <= i < |result.items| && result.items[i] == it;
      assert it == feed[hi - 1 - i];
    }
    forall it | it in feed && (if result.closed then until + 1 else result.oldest) <= it.id <= highest
      ensures it in result.items
    {
      var k :| 0 <= k < |feed| && feed[k] == it;
      assert lo <= k < hi;
      assert result.items[hi - 1 - k] == it;
    }
  }

  /** Where a sound walk stands: the positions it holds, and the one it resumes under. */
  lemma WalkStands(feed: Feed, until: int, from: int, walk: WalkResult) returns (lo: nat, hi: nat)
    requires Ascending(feed) && WalkSound(feed, until, from, walk)
    ensures Slice(feed, until, lo, hi, walk) && lo == Start(feed, Before(from, walk))
    ensures if from > 0 then hi == CountBelow(feed, from) else walk.items == [] ==> hi == |feed|
  {
    if walk.items == [] {
      lo := Start(feed, from);
      hi := lo;
    } else {
      lo := CountBelow(feed, walk.oldest);
      hi := lo + |walk.items|;
    }
  }

  lemma ContinuesSound(feed: Feed, until: int, from: int, b: nat, lo: nat, hi: nat, walk: WalkResult, more: WalkResult)
    requires Ascending(feed) && lo <= hi && Lower(feed, until, b, lo, hi, more)
    requires |walk.items| == hi - lo
    requires from > 0 ==> hi == CountBelow(feed, from)
    ensures WalkSound(feed, until, from, more)
    ensures |more.items| == |walk.items| + lo - b
  {
    CountBelowIs(feed, more.oldest, b);
  }

  lemma NothingNewIsComplete(feed: Feed, until: int)
    requires Ascending(feed) && 0 <= until
    ensures Complete(feed, until, 0, WalkResult([], true, 0))
  {
  }

  lemma ReadyToLand(feed: Feed, decided: set<Item>, phase: Phase, result: WalkResult, highest: int)
    requires phase.Walking? && Complete(feed, Until(phase.forward, phase.at), highest, result)
    requires highest == if phase.forward then HighestOf(SortById(result.items)) else phase.at.gap - 1
    ensures LandingSound(feed, decided, Walked(phase, result))
  {
  }

  /** The end of the walk of the newest region, closed or out of pages, is sound ground for landing. */
  lemma ForwardWalked(feed: Feed, decided: set<Item>, phase: Phase, lo: nat, hi: nat, result: WalkResult)
    requires Ascending(feed) && phase.Walking? && phase.forward && phase.at.Shape()
    requires Slice(feed, phase.at.ForwardFrom(), lo, hi, result)
    requires if result.closed then lo > 0 ==> feed[lo - 1].id <= phase.at.ForwardFrom() else lo < hi
    ensures LandingSound(feed, decided, Walked(phase, result))
  {
    HighestOfSlice(feed, lo, hi, result.items);
    if lo < hi {
      SliceIsComplete(feed, phase.at.ForwardFrom(), lo, hi, result, feed[hi - 1].id);
      ReadyToLand(feed, decided, phase, result, feed[hi - 1].id);
    } else {
      NothingNewIsComplete(feed, phase.at.ForwardFrom());
      assert result == WalkResult([], true, 0);
      ReadyToLand(feed, decided, phase, result, 0);
    }
  }

  /** So is the end of a walk into the backlog. */
  lemma BackfillWalked(feed: Feed, decided: set<Item>, phase: Phase, lo: nat, hi: nat, result: WalkResult)
    requires Ascending(feed) && phase.Walking? && !phase.forward && phase.at.Unread()
    requires Slice(feed, phase.at.floor, lo, hi, result) && hi == CountBelow(feed, phase.at.gap)
    requires if result.closed then lo > 0 ==> feed[lo - 1].id <= phase.at.floor else lo < hi
    ensures LandingSound(feed, decided, Walked(phase, result))
  {
    SliceIsComplete(feed, phase.at.floor, lo, hi, result, phase.at.gap - 1);
    ReadyToLand(feed, decided, phase, result, phase.at.gap - 1);
  }

  lemma WalkedSound(feed: Feed, decided: set<Item>, phase: Phase, lo: nat, hi: nat, result: WalkResult)
    requires Ascending(feed) && phase.Walking? && phase.at.Shape() && (!phase.forward ==> phase.at.Unread())
    requires Slice(feed, Until(phase.forward, phase.at), lo, hi, result)
    requires if result.closed then lo > 0 ==> feed[lo - 1].id <= Until(phase.forward, phase.at) else lo < hi
    requires phase.forward || hi == CountBelow(feed, phase.at.gap)
    ensures LandingSound(feed, decided, Walked(phase, result))
  {
    if phase.forward {
      ForwardWalked(feed, decided, phase, lo, hi, result);
    } else {
      BackfillWalked(feed, decided, phase, lo, hi, result);
    }
  }

  /** What one page makes of a walk, of however many items. */
  lemma PageKeepsWalk(feed: Feed, decided: set<Item>, phase: Phase, size: nat, more: bool, page: Page, fetched: Fetched)
    requires Ascending(feed) && phase.Walking? && phase.at.Shape() && (!phase.forward ==> phase.at.Unread())
    requires WalkSound(feed, Until(phase.forward, phase.at), From(phase.forward, phase.at), phase.walk)
    requires page == PageUnder(feed, Before(From(phase.forward, phase.at), phase.walk), size, more)
    requires fetched == AbsorbPage(phase.walk, page, Until(phase.forward, phase.at)) && !fetched.Failed?
    ensures LandingSound(feed, decided, Walked(phase, fetched.walk))
    ensures |phase.walk.items| <= |fetched.walk.items|
    ensures fetched.Continues? ==>
              && WalkSound(feed, Until(phase.forward, phase.at), From(phase.forward, phase.at), fetched.walk)
              && page.hasMore && |fetched.walk.items| == |phase.walk.items| + |page.items|
  {
    var until, from := Until(phase.forward, phase.at), From(phase.forward, phase.at);
    var lo, hi := WalkStands(feed, until, from, phase.walk);
    var b := Lowered(lo, size);
    AbsorbExtends(feed, until, b, lo, hi, phase.walk, page);
    if fetched.Finished? {
      WalkedSound(feed, decided, phase, Bottom(feed, until, lo), hi, fetched.walk);
    } else {
      ContinuesSound(feed, until, from, b, lo, hi, phase.walk, fetched.walk);
      WalkedSound(feed, decided, phase, b, hi, fetched.walk);
    }
  }

  lemma PagedInBudget(p: Poll, page: Page)
    requires p.phase.Walking? && InBudget(p)
    requires var fetched := AbsorbPage(p.phase.walk, page, Until(p.phase.forward, p.phase.at));
             !fetched.Failed? ==>
               && |p.phase.walk.items| <= |fetched.walk.items|
               && (fetched.Continues? ==> page.hasMore && |fetched.walk.items| == |p.phase.walk.items| + |page.items|)
    ensures InBudget(Paged(p, page))
  {
  }

  lemma PagedPhaseSound(feed: Feed, decided: set<Item>, p: Poll, q: Poll, fetched: Fetched)
    requires p.phase.Walking? && PhaseSound(feed, decided, p) && !fetched.Failed?
    requires LandingSound(feed, decided, Walked(p.phase, fetched.walk))
    requires fetched.Continues? ==>
               WalkSound(feed, Until(p.phase.forward, p.phase.at), From(p.phase.forward, p.phase.at), fetched.walk)
    requires q == p.(requests := q.requests, full := q.full, phase := PagedPhase(p.phase, fetched))
    ensures PhaseSound(feed, decided, q)
  {
  }

  lemma PagedSound(feed: Feed, decided: set<Item>, p: Poll, size: nat, more: bool)
    requires PollSound(feed, decided, p) && p.phase.Walking?
    ensures PollSound(feed, decided, Paged(p, PageUnder(feed, Before(From(p.phase.forward, p.phase.at), p.phase.walk), size, more)))
  {
    var phase := p.phase;
    var page := PageUnder(feed, Before(From(phase.forward, phase.at), phase.walk), size, more);
    var fetched := AbsorbPage(phase.walk, page, Until(phase.forward, phase.at));
    if !fetched.Failed? {
      PageKeepsWalk(feed, decided, phase, size, more, page, fetched);
      PagedPhaseSound(feed, decided, p, Paged(p, page), fetched);
    }
    PagedInBudget(p, page);
  }

  // ------------------------------------------------------------------
  // Arrivals and other polls' landings disturb nothing a poll knows
  // ------------------------------------------------------------------

  lemma CompleteGrows(feed: Feed, later: Feed, until: int, highest: int, result: WalkResult, issued: int)
    requires Grows(feed, later) && Complete(feed, until, highest, result)
    requires highest <= issued && (issued in Ids(feed) || highest <= 0)
    ensures Complete(later, until, highest, result)
  {
  }

  lemma WalkGrows(feed: Feed, later: Feed, until: int, from: int, walk: WalkResult)
    requires Grows(feed, later) && WalkSound(feed, until, from, walk) && (from > 0 ==> from in Ids(feed))
    ensures WalkSound(later, until, from, walk)
  {
    if from > 0 {
      IssuedStable(feed, later, from);
    }
    if walk.items != [] {
      SliceUnderGrows(feed, later, until, from, CountBelow(feed, walk.oldest), walk);
    }
  }

  lemma SliceUnderGrows(feed: Feed, later: Feed, until: int, from: int, lo: nat, walk: WalkResult)
    requires Grows(feed, later) && walk.items != [] && lo == CountBelow(feed, walk.oldest)
    requires SliceUnder(feed, until, from, lo, walk)
    requires from > 0 ==> CountBelow(later, from) == CountBelow(feed, from)
    ensures SliceUnder(later, until, from, lo, walk) && CountBelow(later, walk.oldest) == lo
  {
    assert feed[lo] in feed;
    IssuedStable(feed, later, walk.oldest);
    SliceGrows(feed, later, until, lo, lo + |walk.items|, walk);
  }

  lemma LandingGrows(feed: Feed, later: Feed, decided: set<Item>, more: set<Item>, phase: Phase)
    requires Grows(feed, later) && decided <= more && phase.Landing? && LandingSound(feed, decided, phase)
    requires phase.forward || phase.at.gap in Ids(feed)
    ensures LandingSound(later, more, phase)
  {
    if phase.forward {
      HighestIsIssued(feed, phase);
      assert |phase.todo| == |multiset(phase.todo)| == |phase.result.items|;
      CompleteGrows(feed, later, phase.at.ForwardFrom(), HighestOf(phase.todo), phase.result, HighestOf(phase.todo));
    } else {
      CompleteGrows(feed, later, phase.at.floor, phase.at.gap - 1, phase.result, phase.at.gap);
    }
  }

  lemma SoundGrows(feed: Feed, later: Feed, decided: set<Item>, more: set<Item>, baseline: int, c: Cursor)
    requires Grows(feed, later) && decided <= more && Sound(feed, decided, baseline, c)
    ensures Sound(later, more, baseline, c)
  {
    CoversGrows(feed, later, decided, more, baseline, c);
  }

  lemma PollGrows(feed: Feed, later: Feed, decided: set<Item>, more: set<Item>, p: Poll)
    requires Grows(feed, later) && decided <= more && PollSound(feed, decided, p)
    ensures PollSound(later, more, p)
  {
    SoundGrows(feed, later, decided, more, p.baseline, p.conn.cursor);
    match p.phase
    case Walking(forward, at, _, walk) =>
      SoundGrows(feed, later, decided, more, p.baseline, at);
      WalkGrows(feed, later, Until(forward, at), From(forward, at), walk);
    case Landing(forward, at, _, _, _) =>
      SoundGrows(feed, later, decided, more, p.baseline, at);
      LandingGrows(feed, later, decided, more, p.phase);
    case Saving(at) =>
      SoundGrows(feed, later, decided, more, p.baseline, at);
    case Noting(_) =>
  }
}
