/**
 The provider's inbox as the poll sees it: one account's notifications, ids
 strictly increasing in order of arrival, served newest first, MAX_PAGE_SIZE of
 them asked for at a time and any number answered.
 */
module RelayFeed {
  const MAX_PAGE_SIZE := 50

  datatype Item = Item(id: int, kind: string, senderId: string, senderIsBot: bool)

  /** One account's inbox, oldest first. */
  type Feed = seq<Item>

  datatype Page = Page(items: seq<Item>, hasMore: bool)

  ghost predicate Ascending(feed: Feed) {
    && (forall i, j :: 0 <= i < j < |feed| ==> feed[i].id < feed[j].id)
    && (forall i :: 0 <= i < |feed| ==> 0 < feed[i].id)
  }

  /** `later` is `feed` after some arrivals, each with an id above all before it. */
  ghost predicate Grows(feed: Feed, later: Feed) {
    feed <= later && Ascending(later)
  }

  /** How many ids of the feed lie below `bound`. */
  function CountBelow(feed: Feed, bound: int): (k: nat)
    ensures k <= |feed|
    ensures forall i :: k <= i < |feed| ==> bound <= feed[i].id
    ensures k > 0 ==> feed[k - 1].id < bound
    ensures Ascending(feed) ==> forall i :: 0 <= i < k ==> feed[i].id < bound
  {
    if feed == [] then 0
    else if feed[|feed| - 1].id < bound then |feed|
    else CountBelow(feed[..|feed| - 1], bound)
  }

  lemma CountBelowIs(feed: Feed, bound: int, k: nat)
    requires k <= |feed| && Ascending(feed)
    requires k < |feed| ==> bound <= feed[k].id
    requires k > 0 ==> feed[k - 1].id < bound
    ensures CountBelow(feed, bound) == k
  {
  }

  /** Where a walk begins: under `before`, or at the newest id when it is zero. */
  function Start(feed: Feed, before: int): (k: nat)
    ensures k <= |feed|
  {
    if before > 0 then CountBelow(feed, before) else |feed|
  }

  /** `items` are the notifications at positions lo..hi of the feed, newest first. */
  ghost predicate NewestFirst(feed: Feed, lo: nat, hi: nat, items: seq<Item>) {
    && lo <= hi <= |feed|
    && |items| == hi - lo
    && forall i :: 0 <= i < |items| ==> items[i] == feed[hi - 1 - i]
  }

  function Newest(feed: Feed, lo: nat, hi: nat): (items: seq<Item>)
    requires lo <= hi <= |feed|
    ensures NewestFirst(feed, lo, hi, items)
  {
    seq(hi - lo, i requires 0 <= i < hi - lo => feed[hi - 1 - i])
  }

  /** Where a page of `size` under position hi ends. */
  function Lowered(hi: nat, size: nat): (lo: nat)
    ensures lo <= hi
  {
    if hi > size then hi - size else 0
  }

  /** Where the full page under position hi ends. */
  function PageBottom(hi: nat): (lo: nat)
    ensures lo <= hi
  {
    Lowered(hi, MAX_PAGE_SIZE)
  }

  /**
   A page a deployment may answer: the newest ids below `before`, `size` of them if
   there are as many. It never denies that there are more; it may say so where
   there are none.
   */
  function PageUnder(feed: Feed, before: int, size: nat, more: bool): Page {
    var hi := Start(feed, before);
    Page(Newest(feed, Lowered(hi, size), hi), Lowered(hi, size) > 0 || more)
  }

  /** The full page: as many as were asked for, and the truth about the rest. */
  function PageOf(feed: Feed, before: int): Page {
    PageUnder(feed, before, MAX_PAGE_SIZE, false)
  }
}
