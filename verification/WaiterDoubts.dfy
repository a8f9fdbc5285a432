/**
 What a reading comes to, told from the tree alone: the sum of what its waiters
 state and its helpers cost, and the set of everything that could not be read,
 however often it is met and in whatever order.
 */
module WaiterDoubts {
  import opened WaiterSyntax
  import opened WaiterBudget
  import opened WaiterMeaning

  // ------------------------------------------------------------------
  // The cost and the doubts of a tree
  // ------------------------------------------------------------------

  /** What a call adds itself. */
  function CallMs(helpers: Helpers, depth: nat, node: Node): int
    requires node.Call?
    decreases depth, 0, 2
  {
    if IsWaiter(node.name) then (if CostOf(StatedIn(node.arguments)).Some? then CostOf(StatedIn(node.arguments)).value else 0)
    else if node.bare && node.name in helpers then HelperMs(helpers, depth, node.name)
    else 0
  }

  function MsOf(helpers: Helpers, depth: nat, node: Node): int
    decreases depth, 1, node
  {
    if node.Call? then CallMs(helpers, depth, node) + MsOfAll(helpers, depth, node.children)
    else if node.Declaration? && node.name in helpers then 0
    else MsOfAll(helpers, depth, node.children)
  }

  function MsOfAll(helpers: Helpers, depth: nat, nodes: seq<Node>): int
    decreases depth, 1, nodes
  {
    if nodes == [] then 0 else MsOf(helpers, depth, nodes[0]) + MsOfAll(helpers, depth, nodes[1..])
  }

  /** What each declaration of a name costs. */
  function CostsOf(helpers: Helpers, depth: nat, name: string): set<int>
    requires name in helpers && 0 < depth
    decreases depth, 0, 0
  {
    set body | body in helpers[name] :: MsOf(helpers, depth - 1, body)
  }

  /** Declarations that all cost the same cost that. */
  function HelperMs(helpers: Helpers, depth: nat, name: string): int
    requires name in helpers
    decreases depth, 0, 1
  {
    if depth > 0 && Agree(helpers, depth, name) then MsOf(helpers, depth - 1, helpers[name][0]) else 0
  }

  /** A name is declared, and its declarations all cost the same. */
  predicate Agree(helpers: Helpers, depth: nat, name: string)
    requires name in helpers && 0 < depth
    decreases depth, 0, 0
  {
    helpers[name] != []
    && forall body :: body in helpers[name] ==> MsOf(helpers, depth - 1, body) == MsOf(helpers, depth - 1, helpers[name][0])
  }

  /** The doubt a waiter leaves: its own text when it cannot be seen into, its timeout's when that does not fold. */
  function WaiterDoubts(stated: Stated, text: string): set<Doubt> {
    match stated
    case Silent => {}
    case Opaque => {Unread(text)}
    case Says(value) => if value.folded.None? then {Unread(value.text)} else {}
  }

  function CallDoubts(helpers: Helpers, depth: nat, node: Node): set<Doubt>
    requires node.Call?
    decreases depth, 0, 2
  {
    if IsWaiter(node.name) then WaiterDoubts(StatedIn(node.arguments), node.text)
    else if node.bare && node.name in helpers then HelperDoubts(helpers, depth, node.name)
    else {}
  }

  /** Everything under a node that could not be read. */
  function DoubtsOf(helpers: Helpers, depth: nat, node: Node): set<Doubt>
    decreases depth, 1, node
  {
    if node.Call? then CallDoubts(helpers, depth, node) + DoubtsOfAll(helpers, depth, node.children)
    else if node.Declaration? && node.name in helpers then {}
    else DoubtsOfAll(helpers, depth, node.children)
  }

  function DoubtsOfAll(helpers: Helpers, depth: nat, nodes: seq<Node>): set<Doubt>
    decreases depth, 1, nodes
  {
    if nodes == [] then {} else DoubtsOf(helpers, depth, nodes[0]) + DoubtsOfAll(helpers, depth, nodes[1..])
  }

  /** What a call to a helper leaves in doubt: all its declarations do, or that they disagree. */
  function HelperDoubts(helpers: Helpers, depth: nat, name: string): set<Doubt>
    requires name in helpers
    decreases depth, 0, 1
  {
    if depth == 0 || helpers[name] == [] then {}
    else if Agree(helpers, depth, name) then DoubtsOfAll(helpers, depth - 1, helpers[name])
    else {Disagree(name, |helpers[name]|, CostsOf(helpers, depth, name))}
  }

  // ------------------------------------------------------------------
  // The reading comes to these
  // ------------------------------------------------------------------

  function Members(doubts: seq<Doubt>): set<Doubt> { set doubt | doubt in doubts }

  /** Each of them once. */
  ghost predicate Once(doubts: seq<Doubt>) {
    forall i, j :: 0 <= i < j < |doubts| ==> doubts[i] != doubts[j]
  }

  lemma OnceMore(doubt: Doubt, doubts: seq<Doubt>)
    requires Once(doubts) && doubt !in doubts
    ensures Once([doubt] + doubts)
  {
  }

  /** Merging leaves the list as it stood and adds exactly what was not in it yet, each once. */
  lemma {:induction false} MergeAdds(doubts: seq<Doubt>, more: seq<Doubt>)
    ensures var merged := Merge(doubts, more);
            && doubts <= merged
            && Once(merged[|doubts|..])
            && Members(merged[|doubts|..]) == Members(more) - Members(doubts)
    decreases more
  {
    if more != [] {
      var next := if more[0] in doubts then doubts else doubts + [more[0]];
      MergeAdds(next, more[1..]);
      var merged := Merge(next, more[1..]);
      var added := merged[|next|..];
      assert more == [more[0]] + more[1..];
      if more[0] !in doubts {
        assert merged[|doubts|..] == [more[0]] + added;
        assert Members([more[0]] + added) == {more[0]} + Members(added);
        assert more[0] !in Members(added);
        OnceMore(more[0], added);
      }
    }
  }

  lemma MembersJoin(a: seq<Doubt>, b: seq<Doubt>)
    ensures Members(a + b) == Members(a) + Members(b)
  {
  }

  /** A reading after what costs `ms` and leaves these in doubt. */
  ghost predicate Adds(before: Reading, after: Reading, ms: int, doubts: set<Doubt>) {
    && after.ms == before.ms + ms
    && before.unresolved <= after.unresolved
    && Members(after.unresolved) == Members(before.unresolved) + doubts
  }

  lemma AddsThen(a: Reading, b: Reading, c: Reading, ms: int, more: int, doubts: set<Doubt>, others: set<Doubt>)
    requires Adds(a, b, ms, doubts) && Adds(b, c, more, others)
    ensures Adds(a, c, ms + more, doubts + others)
  {
  }

  lemma WaiterAdds(stated: Stated, text: string, reading: Reading)
    ensures Adds(reading, TakeWaiter(stated, text, reading),
                 if CostOf(stated).Some? then CostOf(stated).value else 0, WaiterDoubts(stated, text))
  {
  }

  lemma HelperAdds(helper: Reading, reading: Reading)
    ensures Adds(reading, TakeHelper(helper, reading), helper.ms, Members(helper.unresolved))
  {
    MergeAdds(reading.unresolved, helper.unresolved);
    var merged := Merge(reading.unresolved, helper.unresolved);
    MembersJoin(reading.unresolved, merged[|reading.unresolved|..]);
    assert merged == reading.unresolved + merged[|reading.unresolved|..];
  }

  lemma {:induction false} InlineAdds(helpers: Helpers, depth: nat, node: Node, reading: Reading)
    ensures Adds(reading, Inline(helpers, depth, node, reading), MsOf(helpers, depth, node), DoubtsOf(helpers, depth, node))
    decreases depth, 1, node
  {
    if node.Call? {
      var taken := Taken(helpers, depth, node, reading);
      CallAdds(helpers, depth, node, reading);
      InlineAddsAll(helpers, depth, node.children, taken);
      AddsThen(reading, taken, InlineAll(helpers, depth, node.children, taken), CallMs(helpers, depth, node),
               MsOfAll(helpers, depth, node.children), CallDoubts(helpers, depth, node), DoubtsOfAll(helpers, depth, node.children));
    } else if node.Other? || node.name !in helpers {
      InlineAddsAll(helpers, depth, node.children, reading);
    }
  }

  lemma {:induction false} InlineAddsAll(helpers: Helpers, depth: nat, nodes: seq<Node>, reading: Reading)
    ensures Adds(reading, InlineAll(helpers, depth, nodes, reading), MsOfAll(helpers, depth, nodes), DoubtsOfAll(helpers, depth, nodes))
    decreases depth, 1, nodes
  {
    if nodes != [] {
      var next := Inline(helpers, depth, nodes[0], reading);
      InlineAdds(helpers, depth, nodes[0], reading);
      InlineAddsAll(helpers, depth, nodes[1..], next);
      AddsThen(reading, next, InlineAll(helpers, depth, nodes[1..], next), MsOf(helpers, depth, nodes[0]),
               MsOfAll(helpers, depth, nodes[1..]), DoubtsOf(helpers, depth, nodes[0]), DoubtsOfAll(helpers, depth, nodes[1..]));
    }
  }

  lemma {:induction false} CallAdds(helpers: Helpers, depth: nat, node: Node, reading: Reading)
    requires node.Call?
    ensures Adds(reading, Taken(helpers, depth, node, reading), CallMs(helpers, depth, node), CallDoubts(helpers, depth, node))
    decreases depth, 0, 1
  {
    if IsWaiter(node.name) {
      WaiterAdds(StatedIn(node.arguments), node.text, reading);
    } else if node.bare && node.name in helpers {
      HelperIs(helpers, depth, node.name);
      HelperAdds(InlineHelper(helpers, depth, node.name), reading);
    }
  }

  /** A helper is read as its declarations cost and leave in doubt. */
  lemma {:induction false} HelperIs(helpers: Helpers, depth: nat, name: string)
    requires name in helpers
    ensures InlineHelper(helpers, depth, name).ms == HelperMs(helpers, depth, name)
    ensures Members(InlineHelper(helpers, depth, name).unresolved) == HelperDoubts(helpers, depth, name)
    decreases depth, 0, 0
  {
    if depth > 0 && helpers[name] != [] {
      var bodies := helpers[name];
      var readings := InlineBodies(helpers, depth - 1, bodies);
      forall i | 0 <= i < |bodies|
        ensures Adds(NOTHING, readings[i], MsOf(helpers, depth - 1, bodies[i]), DoubtsOf(helpers, depth - 1, bodies[i]))
      {
        InlineAdds(helpers, depth - 1, bodies[i], NOTHING);
      }
      DeclarationsCome(helpers, depth - 1, bodies, readings);
      SettlesAs(helpers, depth, name, readings);
    }
  }

  lemma {:induction false} DeclarationsCome(helpers: Helpers, depth: nat, bodies: seq<Node>, readings: seq<Reading>)
    requires |readings| == |bodies|
    requires forall i :: 0 <= i < |bodies| ==>
               Adds(NOTHING, readings[i], MsOf(helpers, depth, bodies[i]), DoubtsOf(helpers, depth, bodies[i]))
    ensures Members(Doubts(readings)) == DoubtsOfAll(helpers, depth, bodies)
    decreases bodies
  {
    if bodies != [] {
      assert Adds(NOTHING, readings[0], MsOf(helpers, depth, bodies[0]), DoubtsOf(helpers, depth, bodies[0]));
      DeclarationsCome(helpers, depth, bodies[1..], readings[1..]);
      MembersJoin(readings[0].unresolved, Doubts(readings[1..]));
    }
  }

  lemma SameCosts(helpers: Helpers, depth: nat, bodies: seq<Node>, readings: seq<Reading>)
    requires |readings| == |bodies|
    requires forall i :: 0 <= i < |bodies| ==> readings[i].ms == MsOf(helpers, depth, bodies[i])
    ensures (set r | r in readings :: r.ms) == (set body | body in bodies :: MsOf(helpers, depth, body))
  {
    var costs, own := set r | r in readings :: r.ms, set body | body in bodies :: MsOf(helpers, depth, body);
    forall c | c in costs ensures c in own {
      var i :| 0 <= i < |readings| && readings[i].ms == c;
      assert bodies[i] in bodies;
    }
    forall c | c in own ensures c in costs {
      var i :| 0 <= i < |bodies| && MsOf(helpers, depth, bodies[i]) == c;
      assert readings[i] in readings;
    }
  }

  /** One cost is one cost exactly when all agree. */
  lemma OneCostExactly(helpers: Helpers, depth: nat, name: string)
    requires name in helpers && 0 < depth && helpers[name] != []
    ensures |CostsOf(helpers, depth, name)| == 1 <==> Agree(helpers, depth, name)
  {
    var bodies := helpers[name];
    var costs, first := CostsOf(helpers, depth, name), MsOf(helpers, depth - 1, bodies[0]);
    assert bodies[0] in bodies && first in costs;
    if Agree(helpers, depth, name) {
      assert costs == {first};
    } else {
      var body :| body in bodies && MsOf(helpers, depth - 1, body) != first;
      assert {first, MsOf(helpers, depth - 1, body)} <= costs;
      assert |costs - {first}| > 0;
    }
  }

  lemma SettlesAs(helpers: Helpers, depth: nat, name: string, readings: seq<Reading>)
    requires name in helpers && 0 < depth && helpers[name] != [] && |readings| == |helpers[name]|
    requires forall i :: 0 <= i < |readings| ==> readings[i].ms == MsOf(helpers, depth - 1, helpers[name][i])
    requires Members(Doubts(readings)) == DoubtsOfAll(helpers, depth - 1, helpers[name])
    ensures Settle(name, readings).ms == HelperMs(helpers, depth, name)
    ensures Members(Settle(name, readings).unresolved) == HelperDoubts(helpers, depth, name)
  {
    var costs := set r | r in readings :: r.ms;
    SameCosts(helpers, depth - 1, helpers[name], readings);
    OneCostExactly(helpers, depth, name);
    assert costs == CostsOf(helpers, depth, name);
    SettleIs(name, readings, costs);
  }

  lemma SettleIs(name: string, readings: seq<Reading>, costs: set<int>)
    requires readings != [] && costs == set r | r in readings :: r.ms
    ensures Settle(name, readings)
         == if |costs| == 1 then Reading(readings[0].ms, Doubts(readings)) else Reading(0, [Disagree(name, |readings|, costs)])
  {
  }

  // ------------------------------------------------------------------
  // The promise
  // ------------------------------------------------------------------

  /**
   EVERY UNCERTAINTY IS REPORTED, AND NOTHING ELSE. Of any acyclic file the budget's
   milliseconds are the sum over the tree, and what is unresolved is exactly every
   waiter in it that cannot be seen into, every timeout that does not fold, every
   name whose declarations disagree, and those of every helper called.
   */
  lemma ReportsExactly(helpers: Helpers, rank: string -> nat, limit: nat, depth: nat, body: Node)
    requires Acyclic(helpers, rank) && CallsBelow(helpers, rank, limit, body) && depth >= limit
    ensures BudgetIn(helpers, body).ms == MsOf(helpers, depth, body)
    ensures forall doubt :: doubt in BudgetIn(helpers, body).unresolved <==> doubt in DoubtsOf(helpers, depth, body)
  {
    MemoIsInvisible(helpers, rank, limit, depth, body, {}, Run(NOTHING, map[]));
    InlineAdds(helpers, depth, body, NOTHING);
    var doubts := BudgetIn(helpers, body).unresolved;
    assert forall doubt :: doubt in doubts <==> doubt in Members(doubts);
  }
}
