/**
 The backwards walk of one inbox: the loop of extensions/relay-probe/walk.go and
 the page contract of extensions/relay-probe/client.go.

 The provider is a feed plus a script of what happens around each request:
 what arrives before it is answered, and whether it is answered by the contract
 or fails. Quantifying over the script is quantifying over every behaviour the
 provider and the senders can show a walk.
 */
module RelayInbox {
  import opened Wrappers
  import opened RelayErrors
  import opened RelayFeed

  datatype WalkResult = WalkResult(items: seq<Item>, closed: bool, oldest: int)

  const NOTHING_FETCHED := WalkResult([], false, 0)

  /** How one request ends: in a page, of however many items and whatever it says of the rest, or not at all. */
  datatype Fault =
    | Answers(size: nat, more: bool)
    | Fails(error: Error)

  /** The full page. */
  const HEALTHY := Answers(MAX_PAGE_SIZE, false)

  /** What one request meets: the notifications that arrive first, then the answer's fate. */
  datatype Turn = Turn(arrivals: seq<Item>, fault: Fault)

  datatype Provider = Provider(feed: Feed, turns: seq<Turn>, requests: nat)

  /** One request: the arrivals come first, then the answer. An exhausted script is a quiet, healthy provider. */
  function Serve(p: Provider, before: int): (Provider, Result<Page, Error>) {
    if p.turns == [] then
      (p.(requests := p.requests + 1), Ok(PageOf(p.feed, before)))
    else
      var turn := p.turns[0];
      var feed := p.feed + turn.arrivals;
      var after := Provider(feed, p.turns[1..], p.requests + 1);
      match turn.fault
      case Answers(size, more) => (after, Ok(PageUnder(feed, before, size, more)))
      case Fails(error) => (after, Err(error))
  }

  /** How many of the page's leading items are above `until`. */
  function Above(items: seq<Item>, until: int): (n: nat)
    ensures n <= |items|
    ensures forall i :: 0 <= i < n ==> until < items[i].id
    ensures n < |items| ==> items[n].id <= until
  {
    if items == [] || items[0].id <= until then 0 else 1 + Above(items[1..], until)
  }

  /** What one request leaves a walk with: finished, to be continued, or failed. */
  datatype Fetched =
    | Finished(walk: WalkResult)
    | Continues(walk: WalkResult)
    | Failed(error: Error)

  /** What one page does to a walk. */
  function AbsorbPage(walk: WalkResult, page: Page, until: int): Fetched {
    var n := Above(page.items, until);
    var items := walk.items + page.items[..n];
    var oldest := if n == 0 then walk.oldest else page.items[n - 1].id;
    if n < |page.items| || !page.hasMore then Finished(WalkResult(items, true, oldest))
    else if n == 0 then Failed({ErrProvider})
    else Continues(WalkResult(items, false, oldest))
  }

  /** One turn of the loop: a request, and what its answer does to the walk. */
  function Fetch(p: Provider, until: int, before: int, walk: WalkResult): (Provider, Fetched) {
    var (after, answer) := Serve(p, before);
    (after, match answer case Err(error) => Failed(error) case Ok(page) => AbsorbPage(walk, page, until))
  }

  /** The walk over a provider: at most `budget` pages from under `before`. */
  function Walk(p: Provider, until: int, before: int, budget: nat, walk: WalkResult)
    : (Provider, Result<WalkResult, Error>)
    decreases budget
  {
    if budget == 0 then (p, Ok(walk))
    else
      var (after, fetched) := Fetch(p, until, before, walk);
      match fetched
      case Failed(error) => (after, Err(error))
      case Finished(done) => (after, Ok(done))
      case Continues(more) => Walk(after, until, more.oldest, budget - 1, more)
  }

  // ------------------------------------------------------------------
  // The loop itself
  // ------------------------------------------------------------------

  /** The client a poll holds; each request moves the provider's script on. */
  class Client {
    var provider: Provider

    constructor (provider: Provider)
      ensures this.provider == provider
    {
      this.provider := provider;
    }

    method Inbox(before: int) returns (answer: Result<Page, Error>)
      modifies this
      ensures (provider, answer) == Serve(old(provider), before)
    {
      var (after, a) := Serve(provider, before);
      provider := after;
      answer := a;
    }
  }

  lemma AboveIs(items: seq<Item>, until: int, n: nat)
    requires n <= |items|
    requires forall i :: 0 <= i < n ==> until < items[i].id
    requires n < |items| ==> items[n].id <= until
    ensures Above(items, until) == n
  {
  }

  /** The loop over one page's items, up to the first at or below `until`. */
  method TakeItems(walk: WalkResult, items: seq<Item>, until: int) returns (more: WalkResult, reached: bool)
    requires !walk.closed
    ensures reached <==> Above(items, until) < |items|
    ensures more.items == walk.items + items[..Above(items, until)] && more.closed == reached
    ensures more.oldest == if Above(items, until) == 0 then walk.oldest else items[Above(items, until) - 1].id
  {
    more := walk;
    for i := 0 to |items|
      invariant forall j :: 0 <= j < i ==> until < items[j].id
      invariant more.items == walk.items + items[..i] && !more.closed
      invariant more.oldest == if i == 0 then walk.oldest else items[i - 1].id
    {
      if items[i].id <= until {
        AboveIs(items, until, i);
        return more.(closed := true), true;
      }
      assert items[..i] + [items[i]] == items[..i + 1];
      more := more.(items := more.items + [items[i]], oldest := items[i].id);
    }
    AboveIs(items, until, |items|);
    reached := false;
  }

  method FetchPage(api: Client, until: int, before: int, walk: WalkResult) returns (fetched: Fetched)
    requires !walk.closed
    modifies api
    ensures (api.provider, fetched) == Fetch(old(api.provider), until, before, walk)
  {
    var answer := api.Inbox(before);
    if answer.Err? {
      return Failed(answer.error);
    }
    var page := answer.value;
    var more, reached := TakeItems(walk, page.items, until);
    if reached {
      return Finished(more);
    }
    if !page.hasMore {
      return Finished(more.(closed := true));
    }
    if |page.items| == 0 {
      return Failed({ErrProvider});
    }
    return Continues(more);
  }

  method WalkInbox(api: Client, until: int, from: int, budget: nat) returns (result: Result<WalkResult, Error>)
    modifies api
    ensures (api.provider, result) == Walk(old(api.provider), until, from, budget, NOTHING_FETCHED)
  {
    ghost var answered := Walk(api.provider, until, from, budget, NOTHING_FETCHED);
    var walk := NOTHING_FETCHED;
    var before := from;
    for page := 0 to budget
      invariant !walk.closed
      invariant Walk(api.provider, until, before, budget - page, walk) == answered
    {
      var fetched := FetchPage(api, until, before, walk);
      match fetched {
        case Failed(error) => return Err(error);
        case Finished(done) => return Ok(done);
        case Continues(more) => walk, before := more, more.oldest;
      }
    }
    return Ok(walk);
  }
}
