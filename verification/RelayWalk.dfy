/** What a walk of the inbox returns, whatever arrives and fails around its requests. */
module RelayWalk {
  import opened Wrappers
  import opened RelayErrors
  import opened RelayFeed
  import opened RelayInbox

  /** The feed once everything the script holds has arrived. */
  function Eventually(feed: Feed, turns: seq<Turn>): Feed
    decreases |turns|
  {
    if turns == [] then feed else Eventually(feed + turns[0].arrivals, turns[1..])
  }

  lemma {:induction false} EventuallyExtends(feed: Feed, turns: seq<Turn>)
    ensures feed <= Eventually(feed, turns)
    decreases |turns|
  {
    if turns != [] {
      EventuallyExtends(feed + turns[0].arrivals, turns[1..]);
    }
  }

  /** Ids grow over the whole script. */
  ghost predicate Orderly(p: Provider) {
    Ascending(Eventually(p.feed, p.turns))
  }

  /** No request fails, whatever arrives meanwhile. */
  predicate AllHealthy(turns: seq<Turn>) {
    forall i :: 0 <= i < |turns| ==> turns[i].fault == HEALTHY
  }

  /** Every page that is answered is a full one. */
  predicate FullPages(turns: seq<Turn>) {
    forall i :: 0 <= i < |turns| && turns[i].fault.Answers? ==> turns[i].fault == HEALTHY
  }

  /** The walk holds exactly the positions lo..hi of the feed, all above `until`. */
  ghost predicate Slice(feed: Feed, until: int, lo: nat, hi: nat, walk: WalkResult) {
    && NewestFirst(feed, lo, hi, walk.items)
    && (lo < hi ==> walk.oldest == feed[lo].id && until < feed[lo].id)
    && (lo == hi ==> walk.oldest == 0)
  }

  lemma SliceGrows(feed: Feed, later: Feed, until: int, lo: nat, hi: nat, walk: WalkResult)
    requires Grows(feed, later) && Slice(feed, until, lo, hi, walk)
    ensures Slice(later, until, lo, hi, walk)
  {
  }

  /** Where the ids at or below `until` end, seen from position hi. */
  function Bottom(feed: Feed, until: int, hi: nat): (b: nat)
    ensures b <= hi
  {
    var u := CountBelow(feed, until + 1);
    if u < hi then u else hi
  }

  /** Of the positions low..lo, read newest first, the ones above `until` come first and are these. */
  lemma AboveOnAPage(feed: Feed, until: int, low: nat, lo: nat, items: seq<Item>)
    requires Ascending(feed) && NewestFirst(feed, low, lo, items)
    ensures var end := lo - Above(items, until);
            end == if Bottom(feed, until, lo) < low then low else Bottom(feed, until, lo)
  {
    var n := Above(items, until);
    var end := lo - n;
    assert n < |items| ==> items[n] == feed[end - 1];
    assert n > 0 ==> items[n - 1] == feed[end];
  }

  lemma SliceExtends(feed: Feed, until: int, end: nat, lo: nat, hi: nat, walk: WalkResult,
                     items: seq<Item>, more: WalkResult)
    requires Slice(feed, until, lo, hi, walk) && NewestFirst(feed, end, lo, items)
    requires end < lo ==> until < feed[end].id
    requires more.items == walk.items + items
    requires more.oldest == if end < lo then feed[end].id else walk.oldest
    ensures Slice(feed, until, end, hi, more)
  {
  }

  /** Whether the page under position lo ends the walk: it reaches `until`, or the start of the feed. */
  predicate LastPage(feed: Feed, until: int, lo: nat) {
    PageBottom(lo) == 0 || PageBottom(lo) < CountBelow(feed, until + 1)
  }

  /** A walk still open, and down to position b under position lo. */
  ghost predicate Lower(feed: Feed, until: int, b: nat, lo: nat, hi: nat, walk: WalkResult) {
    b < lo && CountBelow(feed, until + 1) <= b && !walk.closed && Slice(feed, until, b, hi, walk)
  }

  /**
   A page down to position b extends a slice with no hole: by the whole page, or
   down to the ids at or below `until`, or to the start of the feed, which closes it.
   */
  lemma AbsorbExtends(feed: Feed, until: int, b: nat, lo: nat, hi: nat, walk: WalkResult, page: Page)
    requires Ascending(feed) && Slice(feed, until, lo, hi, walk)
    requires NewestFirst(feed, b, lo, page.items) && (b > 0 ==> page.hasMore)
    ensures var absorbed := AbsorbPage(walk, page, until);
      && (absorbed.Finished? ==>
            && (b < CountBelow(feed, until + 1) || !page.hasMore)
            && absorbed.walk.closed && Slice(feed, until, Bottom(feed, until, lo), hi, absorbed.walk))
      && (absorbed.Continues? ==> page.hasMore && Lower(feed, until, b, lo, hi, absorbed.walk))
      && (absorbed.Failed? ==> b == lo && page.hasMore)
  {
    var absorbed := AbsorbPage(walk, page, until);
    AboveOnAPage(feed, until, b, lo, page.items);
    if !absorbed.Failed? {
      TakenExtends(feed, until, b, lo, hi, walk, page, absorbed.walk);
    }
  }

  /** What is taken of a page extends the slice down to where it stops. */
  lemma TakenExtends(feed: Feed, until: int, b: nat, lo: nat, hi: nat, walk: WalkResult, page: Page, more: WalkResult)
    requires Ascending(feed) && Slice(feed, until, lo, hi, walk) && NewestFirst(feed, b, lo, page.items)
    requires var n := Above(page.items, until);
             more.items == walk.items + page.items[..n]
             && more.oldest == if n == 0 then walk.oldest else page.items[n - 1].id
    ensures Slice(feed, until, lo - Above(page.items, until), hi, more)
  {
    var n := Above(page.items, until);
    assert n > 0 ==> page.items[n - 1] == feed[lo - n];
    SliceExtends(feed, until, lo - n, lo, hi, walk, page.items[..n], more);
  }

  /** The feed the next request is answered from. */
  function NextFeed(p: Provider): Feed {
    if p.turns == [] then p.feed else p.feed + p.turns[0].arrivals
  }

  /** How the next request is answered, if it is. */
  function NextPage(p: Provider): (answers: Fault)
    ensures answers.Answers?
  {
    if p.turns != [] && p.turns[0].fault.Answers? then p.turns[0].fault else HEALTHY
  }

  /** What arrives before the next request keeps the feed ascending. */
  lemma NextFeedGrows(p: Provider)
    requires Orderly(p)
    ensures Grows(p.feed, NextFeed(p))
  {
    var later := if p.turns == [] then [] else p.turns[1..];
    EventuallyExtends(NextFeed(p), later);
    assert NextFeed(p) <= Eventually(p.feed, p.turns);
  }

  lemma ServeKeeps(p: Provider, before: int)
    requires Orderly(p)
    ensures var (after, answer) := Serve(p, before);
            && Orderly(after) && after.feed == NextFeed(p) && after.requests == p.requests + 1
            && (AllHealthy(p.turns) ==> AllHealthy(after.turns) && answer.Ok? && answer.value == PageOf(after.feed, before))
            && (FullPages(p.turns) ==> FullPages(after.turns) && (answer.Ok? ==> answer.value == PageOf(after.feed, before)))
            && (answer.Ok? ==> answer.value == PageUnder(after.feed, before, NextPage(p).size, NextPage(p).more))
  {
  }

  /** Where a walk that may still spend `budget` pages under position lo ends. */
  function WalkBottom(feed: Feed, until: int, lo: nat, budget: nat): int {
    if WalkCloses(feed, until, lo, budget) then Bottom(feed, until, lo) else lo - budget * MAX_PAGE_SIZE
  }

  /** Whether `budget` pages under position lo reach `until`, or the start of the feed. */
  predicate WalkCloses(feed: Feed, until: int, lo: nat, budget: nat) {
    lo - budget * MAX_PAGE_SIZE <= 0 || lo - budget * MAX_PAGE_SIZE < CountBelow(feed, until + 1)
  }

  /** What `Walk` answers of full pages, given that it resumes under position lo of a slice lo..hi. */
  ghost predicate WalkAnswer(p: Provider, until: int, lo: nat, hi: nat, budget: nat,
                             after: Provider, result: Result<WalkResult, Error>)
  {
    var feed := NextFeed(p);
    && Orderly(after) && Grows(feed, after.feed)
    && p.requests < after.requests <= p.requests + budget
    && (AllHealthy(p.turns) ==> result.Ok? && AllHealthy(after.turns))
    && (result.Ok? ==>
          var walk := result.value;
          && walk.closed == WalkCloses(feed, until, lo, budget)
          && 0 <= WalkBottom(feed, until, lo, budget)
          && Slice(after.feed, until, WalkBottom(feed, until, lo, budget), hi, walk)
          && MAX_PAGE_SIZE * (after.requests - p.requests - 1) <= lo - WalkBottom(feed, until, lo, budget))
  }

  /** Whatever arrives before the next request, the walk resumes right under what it holds. */
  lemma ResumesBelow(p: Provider, until: int, low: nat, hi: nat, walk: WalkResult)
    requires Orderly(p) && Slice(p.feed, until, low, hi, walk) && low < hi
    ensures Slice(NextFeed(p), until, low, hi, walk)
    ensures 0 < walk.oldest && Start(NextFeed(p), walk.oldest) == low
    ensures CountBelow(NextFeed(p), until + 1) == CountBelow(p.feed, until + 1) <= low
    ensures Grows(p.feed, NextFeed(p))
  {
    var later := NextFeed(p);
    NextFeedGrows(p);
    assert later[low] == p.feed[low];
    SliceResumes(p.feed, later, until, low, hi, walk);
  }

  lemma SliceResumes(feed: Feed, later: Feed, until: int, low: nat, hi: nat, walk: WalkResult)
    requires Grows(feed, later) && Slice(feed, until, low, hi, walk) && low < hi
    ensures 0 < walk.oldest && CountBelow(later, walk.oldest) == low
    ensures CountBelow(later, until + 1) == CountBelow(feed, until + 1) <= low
  {
    CountBelowIs(later, walk.oldest, low);
    var u := CountBelow(feed, until + 1);
    assert u <= low;
    CountBelowIs(later, until + 1, u);
  }

  /** The answer of one page that ends the walk, or that spends the last of the budget. */
  lemma LastAnswer(p: Provider, until: int, lo: nat, hi: nat, budget: nat, after: Provider, walk: WalkResult)
    requires Orderly(after) && after.feed == NextFeed(p) && after.requests == p.requests + 1 && 0 < budget
    requires AllHealthy(p.turns) ==> AllHealthy(after.turns)
    requires lo <= |after.feed| && Ascending(after.feed)
    requires if LastPage(after.feed, until, lo)
             then walk.closed && Slice(after.feed, until, Bottom(after.feed, until, lo), hi, walk)
             else !walk.closed && budget == 1 && Slice(after.feed, until, PageBottom(lo), hi, walk)
    ensures WalkAnswer(p, until, lo, hi, budget, after, Ok(walk))
  {
  }

  /** One full page was answered, and the walk goes on under it. */
  ghost predicate UnderAPage(p: Provider, mid: Provider, until: int, lo: nat) {
    && mid.feed == NextFeed(p) && mid.requests == p.requests + 1
    && (AllHealthy(p.turns) ==> AllHealthy(mid.turns))
    && Grows(mid.feed, NextFeed(mid))
    && !LastPage(mid.feed, until, lo)
    && CountBelow(NextFeed(mid), until + 1) == CountBelow(mid.feed, until + 1)
  }

  lemma PageResumes(p: Provider, mid: Provider, until: int, lo: nat, hi: nat, more: WalkResult)
    requires Orderly(mid) && mid.feed == NextFeed(p) && mid.requests == p.requests + 1
    requires AllHealthy(p.turns) ==> AllHealthy(mid.turns)
    requires !LastPage(mid.feed, until, lo) && lo <= hi
    requires Slice(mid.feed, until, PageBottom(lo), hi, more)
    ensures UnderAPage(p, mid, until, lo)
    ensures Slice(NextFeed(mid), until, PageBottom(lo), hi, more)
    ensures PageBottom(lo) == Start(NextFeed(mid), more.oldest)
  {
    ResumesBelow(mid, until, PageBottom(lo), hi, more);
  }

  /** The answer of a walk that goes on under a full page. */
  lemma AnswerUnderAPage(p: Provider, mid: Provider, until: int, lo: nat, hi: nat, budget: nat,
                         after: Provider, result: Result<WalkResult, Error>)
    requires UnderAPage(p, mid, until, lo) && 1 < budget
    requires WalkAnswer(mid, until, PageBottom(lo), hi, budget - 1, after, result)
    ensures WalkAnswer(p, until, lo, hi, budget, after, result)
  {
    assert WalkCloses(mid.feed, until, lo, budget)
      == WalkCloses(NextFeed(mid), until, PageBottom(lo), budget - 1);
    assert WalkBottom(mid.feed, until, lo, budget)
      == WalkBottom(NextFeed(mid), until, PageBottom(lo), budget - 1);
  }

  /** One turn of the walk: the slice grows downwards, closes, or some request was not healthy. */
  lemma FetchExtends(p: Provider, until: int, before: int, walk: WalkResult, lo: nat, hi: nat,
                     mid: Provider, fetched: Fetched)
    returns (b: nat)
    requires Orderly(p) && Slice(NextFeed(p), until, lo, hi, walk) && lo == Start(NextFeed(p), before)
    requires (mid, fetched) == Fetch(p, until, before, walk)
    ensures Orderly(mid) && Ascending(mid.feed) && mid.feed == NextFeed(p) && mid.requests == p.requests + 1
    ensures (AllHealthy(p.turns) ==> AllHealthy(mid.turns)) && (FullPages(p.turns) ==> FullPages(mid.turns))
    ensures match fetched
            case Finished(done) => done.closed && Slice(mid.feed, until, Bottom(mid.feed, until, lo), hi, done)
            case Continues(more) => Lower(mid.feed, until, b, lo, hi, more)
            case Failed(_) => !AllHealthy(p.turns)
  {
    ServeKeeps(p, before);
    NextFeedGrows(p);
    var answer := Serve(p, before).1;
    b := Lowered(lo, NextPage(p).size);
    if answer.Ok? {
      AbsorbExtends(mid.feed, until, b, lo, hi, walk, answer.value);
      if AllHealthy(p.turns) {
        AbsorbExtends(mid.feed, until, PageBottom(lo), lo, hi, walk, answer.value);
      }
    }
  }

  /** One turn of a walk over full pages. */
  lemma FullFetchExtends(p: Provider, until: int, before: int, walk: WalkResult, lo: nat, hi: nat,
                         mid: Provider, fetched: Fetched)
    requires Orderly(p) && Slice(NextFeed(p), until, lo, hi, walk) && lo == Start(NextFeed(p), before)
    requires (mid, fetched) == Fetch(p, until, before, walk) && FullPages(p.turns)
    ensures Orderly(mid) && Ascending(mid.feed) && mid.feed == NextFeed(p) && mid.requests == p.requests + 1
    ensures FullPages(mid.turns) && (AllHealthy(p.turns) ==> AllHealthy(mid.turns))
    ensures match fetched
            case Finished(done) =>
              LastPage(mid.feed, until, lo) && done.closed && Slice(mid.feed, until, Bottom(mid.feed, until, lo), hi, done)
            case Continues(more) =>
              !LastPage(mid.feed, until, lo) && !more.closed && Slice(mid.feed, until, PageBottom(lo), hi, more)
            case Failed(_) => !AllHealthy(p.turns)
  {
    ServeKeeps(p, before);
    NextFeedGrows(p);
    var answer := Serve(p, before).1;
    if answer.Ok? {
      AbsorbExtends(mid.feed, until, PageBottom(lo), lo, hi, walk, answer.value);
    }
  }

  // ------------------------------------------------------------------
  // Any pages: no hole
  // ------------------------------------------------------------------

  /** What `Walk` answers of any pages, given that it resumes under position lo of a slice lo..hi. */
  ghost predicate HoleFree(p: Provider, until: int, lo: nat, hi: nat, budget: nat,
                           after: Provider, result: Result<WalkResult, Error>)
  {
    && Orderly(after) && Grows(NextFeed(p), after.feed)
    && p.requests < after.requests <= p.requests + budget
    && (AllHealthy(p.turns) ==> result.Ok? && AllHealthy(after.turns))
    && (FullPages(p.turns) ==> FullPages(after.turns))
    && (result.Ok? ==> Reached(NextFeed(p), after.feed, until, lo, hi, result.value)
                       && (!result.value.closed ==> after.requests == p.requests + budget))
  }

  /** The walk holds every position from where it got to up to hi; closed, it got to `until` or the start of the feed. */
  ghost predicate Reached(first: Feed, feed: Feed, until: int, lo: nat, hi: nat, walk: WalkResult) {
    var b := hi - |walk.items|;
    && 0 <= b <= lo && Slice(feed, until, b, hi, walk)
    && (if walk.closed then b == Bottom(first, until, lo) else b < lo && CountBelow(first, until + 1) <= b)
  }

  /** The answer of one page that ends the walk, or that spends the last of the budget. */
  lemma StopsHere(p: Provider, until: int, b: nat, lo: nat, hi: nat, budget: nat, after: Provider, walk: WalkResult)
    requires Orderly(after) && after.feed == NextFeed(p) && after.requests == p.requests + 1 && 0 < budget
    requires (AllHealthy(p.turns) ==> AllHealthy(after.turns)) && (FullPages(p.turns) ==> FullPages(after.turns))
    requires Ascending(after.feed) && lo <= hi
    requires if walk.closed then Slice(after.feed, until, Bottom(after.feed, until, lo), hi, walk)
             else budget == 1 && Lower(after.feed, until, b, lo, hi, walk)
    ensures HoleFree(p, until, lo, hi, budget, after, Ok(walk))
  {
  }

  lemma {:induction false} WalkReaches(p: Provider, until: int, before: int, budget: nat, walk: WalkResult,
                                       lo: nat, hi: nat, after: Provider, result: Result<WalkResult, Error>)
    requires Orderly(p) && 0 < budget
    requires Slice(NextFeed(p), until, lo, hi, walk) && lo == Start(NextFeed(p), before)
    requires (after, result) == Walk(p, until, before, budget, walk)
    ensures HoleFree(p, until, lo, hi, budget, after, result)
    decreases budget, 0
  {
    var (mid, fetched) := Fetch(p, until, before, walk);
    var b := FetchExtends(p, until, before, walk, lo, hi, mid, fetched);
    if fetched.Continues? && 1 < budget {
      ReachesOn(p, mid, until, lo, b, hi, budget, fetched.walk, after, result);
    } else if !fetched.Failed? {
      StopsHere(p, until, b, lo, hi, budget, mid, fetched.walk);
    }
  }

  /** The rest of a walk that goes on under a page down to position b. */
  lemma {:induction false} ReachesOn(p: Provider, mid: Provider, until: int, lo: nat, b: nat, hi: nat, budget: nat,
                                     more: WalkResult, after: Provider, result: Result<WalkResult, Error>)
    requires Orderly(mid) && mid.feed == NextFeed(p) && mid.requests == p.requests + 1 && 1 < budget
    requires (AllHealthy(p.turns) ==> AllHealthy(mid.turns)) && (FullPages(p.turns) ==> FullPages(mid.turns))
    requires b < lo <= hi && CountBelow(mid.feed, until + 1) <= b && Slice(mid.feed, until, b, hi, more)
    requires (after, result) == Walk(mid, until, more.oldest, budget - 1, more)
    ensures HoleFree(p, until, lo, hi, budget, after, result)
    decreases budget - 1, 1
  {
    ResumesBelow(mid, until, b, hi, more);
    WalkReaches(mid, until, more.oldest, budget - 1, more, b, hi, after, result);
    ReachedOn(p, mid, until, lo, b, hi, budget, after, result);
  }

  lemma ReachedOn(p: Provider, mid: Provider, until: int, lo: nat, b: nat, hi: nat, budget: nat,
                  after: Provider, result: Result<WalkResult, Error>)
    requires mid.feed == NextFeed(p) && mid.requests == p.requests + 1 && 1 < budget && Grows(mid.feed, NextFeed(mid))
    requires (AllHealthy(p.turns) ==> AllHealthy(mid.turns)) && (FullPages(p.turns) ==> FullPages(mid.turns))
    requires b < lo <= hi && CountBelow(NextFeed(mid), until + 1) == CountBelow(mid.feed, until + 1) <= b
    requires HoleFree(mid, until, b, hi, budget - 1, after, result)
    ensures HoleFree(p, until, lo, hi, budget, after, result)
  {
    if result.Ok? {
      ReachedUnder(mid.feed, NextFeed(mid), after.feed, until, lo, b, hi, result.value);
    }
  }

  lemma ReachedUnder(first: Feed, next: Feed, feed: Feed, until: int, lo: nat, b: nat, hi: nat, walk: WalkResult)
    requires b < lo && CountBelow(next, until + 1) == CountBelow(first, until + 1) <= b
    requires Reached(next, feed, until, b, hi, walk)
    ensures Reached(first, feed, until, lo, hi, walk)
  {
  }

  /**
   The whole walk, against any script of arrivals, faults and pages of any length.
   Seen from the feed that answered its first page, it holds every position from
   where it got to up to where it began, each once, newest first and all above
   `until`; and it says it is closed only when nothing above `until` is left under it.
   */
  lemma WalkHasNoHole(p: Provider, until: int, before: int, budget: nat)
    requires Orderly(p) && 0 < budget
    ensures var (after, result) := Walk(p, until, before, budget, NOTHING_FETCHED);
            var start := Start(NextFeed(p), before);
            HoleFree(p, until, start, start, budget, after, result)
  {
    var (after, result) := Walk(p, until, before, budget, NOTHING_FETCHED);
    var start := Start(NextFeed(p), before);
    WalkReaches(p, until, before, budget, NOTHING_FETCHED, start, start, after, result);
  }

  // ------------------------------------------------------------------
  // Full pages: exactly how far
  // ------------------------------------------------------------------

  lemma {:induction false} WalkContinues(p: Provider, until: int, before: int, budget: nat, walk: WalkResult,
                                         lo: nat, hi: nat, after: Provider, result: Result<WalkResult, Error>)
    requires Orderly(p) && FullPages(p.turns) && 0 < budget
    requires Slice(NextFeed(p), until, lo, hi, walk) && lo == Start(NextFeed(p), before)
    requires (after, result) == Walk(p, until, before, budget, walk)
    ensures WalkAnswer(p, until, lo, hi, budget, after, result)
    decreases budget, 0
  {
    var (mid, fetched) := Fetch(p, until, before, walk);
    FullFetchExtends(p, until, before, walk, lo, hi, mid, fetched);
    match fetched
    case Failed(_) =>
    case Finished(done) => LastAnswer(p, until, lo, hi, budget, mid, done);
    case Continues(more) =>
      if budget == 1 {
        LastAnswer(p, until, lo, hi, budget, mid, more);
      } else {
        PageResumes(p, mid, until, lo, hi, more);
        WalkGoesOn(p, mid, until, lo, hi, budget, more, after, result);
      }
  }

  /** The rest of a walk that goes on under a full page. */
  lemma {:induction false} WalkGoesOn(p: Provider, mid: Provider, until: int, lo: nat, hi: nat, budget: nat, more: WalkResult,
                                      after: Provider, result: Result<WalkResult, Error>)
    requires Orderly(p) && Orderly(mid) && FullPages(mid.turns) && UnderAPage(p, mid, until, lo) && 1 < budget
    requires Slice(NextFeed(mid), until, PageBottom(lo), hi, more) && PageBottom(lo) == Start(NextFeed(mid), more.oldest)
    requires (after, result) == Walk(mid, until, more.oldest, budget - 1, more)
    ensures WalkAnswer(p, until, lo, hi, budget, after, result)
    decreases budget - 1, 1
  {
    WalkContinues(mid, until, more.oldest, budget - 1, more, PageBottom(lo), hi, after, result);
    AnswerUnderAPage(p, mid, until, lo, hi, budget, after, result);
  }

  /**
   The whole walk, when every page answered is full. Seen from the feed that
   answered its first page, it holds every position under where it began, each
   once, newest first and all above `until`: down to the ids at or below `until`
   when it closed, and exactly `budget` full pages when it did not. What arrives
   between the pages changes nothing.
   */
  lemma WalkIsASlice(p: Provider, until: int, before: int, budget: nat)
    requires Orderly(p) && FullPages(p.turns) && 0 < budget
    ensures var (after, result) := Walk(p, until, before, budget, NOTHING_FETCHED);
            var start := Start(NextFeed(p), before);
            WalkAnswer(p, until, start, start, budget, after, result)
  {
    var (after, result) := Walk(p, until, before, budget, NOTHING_FETCHED);
    var start := Start(NextFeed(p), before);
    WalkContinues(p, until, before, budget, NOTHING_FETCHED, start, start, after, result);
  }
}
