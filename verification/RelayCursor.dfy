/**
 The cursor's three numbers and how a tick moves them
 (extensions/relay-probe/walk.go).
 */
module RelayCursor {
  import opened RelayFeed
  import opened RelayInbox

  const MAX_PAGES_PER_POLL := 4
  const FIRST_POLL_PAGES := 1

  datatype Cursor = Cursor(floor: int, gap: int, top: int) {
    predicate Unread() { gap > 0 }

    predicate FirstPoll() { floor == 0 && gap == 0 && top == 0 }

    function ForwardFrom(): int { if top > 0 then top else floor }

    /** The pages one poll may spend across both of its walks. */
    function Budget(): nat { if FirstPoll() then FIRST_POLL_PAGES else MAX_PAGES_PER_POLL }

    /** The two shapes a stored cursor has: no backlog, or one strictly between floor and gap. */
    ghost predicate Shape() {
      (gap == 0 && top == 0 && 0 <= floor) || 0 < floor < gap <= top
    }
  }

  const UNREAD_ACCOUNT := Cursor(0, 0, 0)

  function MaxOf(a: int, b: int): int { if a > b then a else b }

  function AfterForward(before: Cursor, processedTo: int, result: WalkResult): Cursor {
    var after := if processedTo > 0 then before.(top := processedTo) else before;
    if before.FirstPoll() then Cursor(processedTo, 0, 0)
    else if !result.closed then after.(gap := result.oldest)
    else if !after.Unread() then after.(floor := MaxOf(after.top, before.floor), top := 0)
    else after
  }

  function AfterBackfill(before: Cursor, result: WalkResult): Cursor {
    if result.closed then Cursor(MaxOf(before.top, before.floor), 0, 0)
    else if result.oldest > 0 then before.(gap := result.oldest)
    else before
  }

  /** The pages the forward walk is charged for, counted from the items it brought. */
  function Spent(items: seq<Item>): nat { |items| / MAX_PAGE_SIZE + 1 }

  /** What the forward walk leaves of the budget for the backlog: nothing when there is none. */
  function BackfillBudget(at: Cursor, items: seq<Item>, budget: nat): nat {
    if at.Unread() && Spent(items) < budget then budget - Spent(items) else 0
  }

  // ------------------------------------------------------------------
  // What a cursor promises
  // ------------------------------------------------------------------

  function Ids(feed: Feed): set<int> { set it | it in feed :: it.id }

  /** The ids a cursor stands for: up to the floor, and the region above an open gap. */
  predicate Passed(c: Cursor, baseline: int, id: int) {
    baseline < id && (id <= c.floor || (c.Unread() && c.gap <= id <= c.top))
  }

  /** Everything a cursor has passed is decided. */
  ghost predicate Covers(feed: Feed, decided: set<Item>, baseline: int, c: Cursor) {
    forall it :: it in feed && Passed(c, baseline, it.id) ==> it in decided
  }

  /** The cursor's numbers are ids this very feed has issued. */
  ghost predicate Issued(feed: Feed, c: Cursor) {
    && (c.floor > 0 ==> c.floor in Ids(feed))
    && (c.gap > 0 ==> c.gap in Ids(feed))
    && (c.top > 0 ==> c.top in Ids(feed))
  }

  /** A poll only ever moves the floor and the newest decided id up. */
  ghost predicate Advances(before: Cursor, after: Cursor) {
    before.floor <= after.floor && before.ForwardFrom() <= after.ForwardFrom()
  }

  /** The walk holds every id of the feed from lowest to highest. */
  ghost predicate Holds(feed: Feed, lowest: int, highest: int, result: WalkResult) {
    forall it :: it in feed && lowest <= it.id <= highest ==> it in result.items
  }

  /** A finished walk down to `until`: what it brought, and that nothing was skipped up to `highest`. */
  ghost predicate Complete(feed: Feed, until: int, highest: int, result: WalkResult) {
    && (forall it :: it in result.items ==> it in feed && until < it.id && result.oldest <= it.id <= highest)
    && (result.items != [] ==> until < result.oldest <= highest && result.oldest in Ids(feed))
    && (result.items == [] ==> result.oldest == 0 && result.closed)
    && Holds(feed, if result.closed then until + 1 else result.oldest, highest, result)
  }

  /** The baseline a poll would leave: right under what a first poll read, if it read anything, and unmoved otherwise. */
  function BaselineAfter(before: Cursor, baseline: int, result: WalkResult): int {
    if before.FirstPoll() && result.items != [] then result.oldest - 1 else baseline
  }

  lemma ForwardCovers(feed: Feed, decided: set<Item>, baseline: int, c: Cursor, processedTo: int, result: WalkResult)
    requires Ascending(feed) && c.Shape() && Issued(feed, c) && Covers(feed, decided, baseline, c)
    requires Complete(feed, c.ForwardFrom(), processedTo, result)
    requires if result.items == [] then processedTo == 0 else processedTo in Ids(feed)
    requires forall it :: it in result.items ==> it in decided
    ensures var at := AfterForward(c, processedTo, result);
            && at.Shape() && Issued(feed, at) && Advances(c, at)
            && Covers(feed, decided, BaselineAfter(c, baseline, result), at)
  {
  }

  lemma BackfillCovers(feed: Feed, decided: set<Item>, baseline: int, at: Cursor, result: WalkResult)
    requires at.Shape() && at.Unread() && Issued(feed, at) && Covers(feed, decided, baseline, at)
    requires Complete(feed, at.floor, at.gap - 1, result)
    requires forall it :: it in result.items ==> it in decided
    ensures var after := AfterBackfill(at, result);
            && after.Shape() && Issued(feed, after) && Advances(at, after)
            && Covers(feed, decided, baseline, after)
  {
  }

  lemma CoversGrows(feed: Feed, later: Feed, decided: set<Item>, more: set<Item>, baseline: int, c: Cursor)
    requires Grows(feed, later) && decided <= more
    requires c.Shape() && Issued(feed, c) && Covers(feed, decided, baseline, c)
    ensures Issued(later, c) && Covers(later, more, baseline, c)
  {
  }

  lemma IssuedStable(feed: Feed, later: Feed, issued: int)
    requires Grows(feed, later) && issued in Ids(feed)
    ensures CountBelow(later, issued) == CountBelow(feed, issued)
  {
  }
}
