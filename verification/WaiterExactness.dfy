/**
 The promise of the waiter-budget reader: every uncertainty is reported, and a
 budget with nothing unresolved is the cost whatever each repeated name means.
 */
module WaiterExactness {
  import opened Wrappers
  import opened WaiterSyntax
  import opened WaiterBudget
  import opened WaiterMeaning

  // ------------------------------------------------------------------
  // Nothing reported: the reading is exact
  // ------------------------------------------------------------------

  /** With nothing reported, `node` spends exactly what it adds to the reading. */
  lemma {:induction false} Exact(helpers: Helpers, rank: string -> nat, exact: bool, limit: nat, depth: nat,
                                 node: Node, reading: Reading)
    requires LegibleFile(helpers, rank, exact) && Legible(helpers, rank, exact, limit, node) && depth >= limit
    requires Inline(helpers, depth, node, reading).unresolved == []
    ensures Certain(helpers, depth, node, Inline(helpers, depth, node, reading).ms - reading.ms)
    decreases limit, 1, node
  {
    if node.Call? {
      var taken := Taken(helpers, depth, node, reading);
      DoubtsStayInAll(helpers, depth, node.children, taken);
      ExactCall(helpers, rank, exact, limit, depth, node, reading);
      ExactAll(helpers, rank, exact, limit, depth, node.children, taken);
      assert CallSpends(helpers, depth, node, taken.ms - reading.ms);
    } else if node.Other? || node.name !in helpers {
      ExactAll(helpers, rank, exact, limit, depth, node.children, reading);
    }
  }

  lemma {:induction false} ExactAll(helpers: Helpers, rank: string -> nat, exact: bool, limit: nat, depth: nat,
                                    nodes: seq<Node>, reading: Reading)
    requires LegibleFile(helpers, rank, exact) && LegibleAll(helpers, rank, exact, limit, nodes) && depth >= limit
    requires InlineAll(helpers, depth, nodes, reading).unresolved == []
    ensures forall n :: SpendsAll(helpers, depth, nodes, n)
                   <==> n == InlineAll(helpers, depth, nodes, reading).ms - reading.ms
    decreases limit, 1, nodes
  {
    if nodes != [] {
      var next := Inline(helpers, depth, nodes[0], reading);
      DoubtsStayInAll(helpers, depth, nodes[1..], next);
      Exact(helpers, rank, exact, limit, depth, nodes[0], reading);
      ExactAll(helpers, rank, exact, limit, depth, nodes[1..], next);
      assert Spends(helpers, depth, nodes[0], next.ms - reading.ms);
    }
  }

  lemma {:induction false} ExactCall(helpers: Helpers, rank: string -> nat, exact: bool, limit: nat, depth: nat,
                                     node: Node, reading: Reading)
    requires LegibleFile(helpers, rank, exact) && Legible(helpers, rank, exact, limit, node) && depth >= limit
    requires node.Call? && Taken(helpers, depth, node, reading).unresolved == []
    ensures forall n :: CallSpends(helpers, depth, node, n) <==> n == Taken(helpers, depth, node, reading).ms - reading.ms
    decreases limit, 0, 1
  {
    if node.bare && node.name in helpers {
      MergeKeepsDoubts(reading.unresolved, InlineHelper(helpers, depth, node.name).unresolved);
      ExactHelper(helpers, rank, exact, depth, node.name);
    } else if IsWaiter(node.name) {
      CostReadExactly(exact, node.arguments);
    }
  }

  lemma {:induction false} ExactHelper(helpers: Helpers, rank: string -> nat, exact: bool, depth: nat, name: string)
    requires LegibleFile(helpers, rank, exact) && name in helpers && depth > rank(name)
    requires InlineHelper(helpers, depth, name).unresolved == []
    ensures forall n :: HelperSpends(helpers, depth, name, n) <==> n == InlineHelper(helpers, depth, name).ms
    decreases rank(name) + 1, 0, 0
  {
    var bodies := helpers[name];
    var readings := InlineBodies(helpers, depth - 1, bodies);
    OneCost(name, readings);
    forall i | 0 <= i < |bodies| ensures Certain(helpers, depth - 1, bodies[i], readings[0].ms) {
      assert readings[i] in readings;
      Exact(helpers, rank, exact, rank(name), depth - 1, bodies[i], NOTHING);
    }
    assert bodies[0] in bodies;
  }

  /** Declarations settle on a cost with nothing unresolved exactly when each is resolved and all agree. */
  lemma OneCost(name: string, readings: seq<Reading>)
    requires readings != []
    ensures Settle(name, readings).unresolved == []
       <==> forall r :: r in readings ==> r.unresolved == [] && r.ms == readings[0].ms
    ensures Settle(name, readings).unresolved == [] ==> Settle(name, readings).ms == readings[0].ms
  {
    var costs := set r | r in readings :: r.ms;
    assert readings[0] in readings && readings[0].ms in costs;
    NoDoubts(readings);
    if forall r :: r in readings ==> r.ms == readings[0].ms {
      assert costs == {readings[0].ms};
    }
    if |costs| == 1 {
      Alone(costs, readings[0].ms);
      forall r | r in readings ensures r.ms == readings[0].ms { assert r.ms in costs; }
    }
  }

  lemma Alone(s: set<int>, x: int)
    requires |s| == 1 && x in s
    ensures s == {x}
  {
    assert |s - {x}| == 0;
  }

  // ------------------------------------------------------------------
  // Something reported: the cost is not determined
  // ------------------------------------------------------------------

  /** Two different costs one node may have. */
  ghost predicate Unsure(helpers: Helpers, depth: nat, node: Node, a: int, b: int) {
    a != b && Spends(helpers, depth, node, a) && Spends(helpers, depth, node, b)
  }

  /** Whatever is reported is a real uncertainty. */
  lemma {:induction false} Doubted(helpers: Helpers, rank: string -> nat, limit: nat, depth: nat,
                                   node: Node, reading: Reading)
    returns (a: int, b: int)
    requires LegibleFile(helpers, rank, true) && Legible(helpers, rank, true, limit, node) && depth >= limit
    requires reading.unresolved == [] && Inline(helpers, depth, node, reading).unresolved != []
    ensures Unsure(helpers, depth, node, a, b)
    decreases limit, 1, node
  {
    if node.Call? {
      var taken := Taken(helpers, depth, node, reading);
      if taken.unresolved != [] {
        a, b := DoubtedCall(helpers, rank, limit, depth, node, reading);
        var rest := SolventAll(helpers, rank, true, limit, depth, node.children);
        assert CallSpends(helpers, depth, node, a) && CallSpends(helpers, depth, node, b);
        assert a + rest - a == rest && b + rest - b == rest;
        a, b := a + rest, b + rest;
      } else {
        ExactCall(helpers, rank, true, limit, depth, node, reading);
        var own := taken.ms - reading.ms;
        assert CallSpends(helpers, depth, node, own);
        a, b := DoubtedAll(helpers, rank, limit, depth, node.children, taken);
        assert own + a - own == a && own + b - own == b;
        a, b := own + a, own + b;
      }
    } else {
      a, b := DoubtedAll(helpers, rank, limit, depth, node.children, reading);
    }
  }

  lemma {:induction false} DoubtedAll(helpers: Helpers, rank: string -> nat, limit: nat, depth: nat,
                                      nodes: seq<Node>, reading: Reading)
    returns (a: int, b: int)
    requires LegibleFile(helpers, rank, true) && LegibleAll(helpers, rank, true, limit, nodes) && depth >= limit
    requires reading.unresolved == [] && InlineAll(helpers, depth, nodes, reading).unresolved != []
    ensures a != b && SpendsAll(helpers, depth, nodes, a) && SpendsAll(helpers, depth, nodes, b)
    decreases limit, 1, nodes
  {
    var next := Inline(helpers, depth, nodes[0], reading);
    if next.unresolved != [] {
      a, b := Doubted(helpers, rank, limit, depth, nodes[0], reading);
      var rest := SolventAll(helpers, rank, true, limit, depth, nodes[1..]);
      assert a + rest - a == rest && b + rest - b == rest;
      a, b := a + rest, b + rest;
    } else {
      var first := Solvent(helpers, rank, true, limit, depth, nodes[0]);
      a, b := DoubtedAll(helpers, rank, limit, depth, nodes[1..], next);
      assert first + a - first == a && first + b - first == b;
      a, b := first + a, first + b;
    }
  }

  lemma {:induction false} DoubtedCall(helpers: Helpers, rank: string -> nat, limit: nat, depth: nat,
                                       node: Node, reading: Reading)
    returns (a: int, b: int)
    requires LegibleFile(helpers, rank, true) && Legible(helpers, rank, true, limit, node) && depth >= limit
    requires node.Call? && reading.unresolved == [] && Taken(helpers, depth, node, reading).unresolved != []
    ensures a != b && CallSpends(helpers, depth, node, a) && CallSpends(helpers, depth, node, b)
    decreases limit, 0, 1
  {
    if node.bare && node.name in helpers {
      MergeKeepsDoubts(reading.unresolved, InlineHelper(helpers, depth, node.name).unresolved);
      a, b := DoubtedHelper(helpers, rank, depth, node.name);
    } else {
      CostReadExactly(true, node.arguments);
      a, b := 0, 1;
    }
  }

  lemma {:induction false} DoubtedHelper(helpers: Helpers, rank: string -> nat, depth: nat, name: string)
    returns (a: int, b: int)
    requires LegibleFile(helpers, rank, true) && name in helpers && depth > rank(name)
    requires InlineHelper(helpers, depth, name).unresolved != []
    ensures a != b && HelperSpends(helpers, depth, name, a) && HelperSpends(helpers, depth, name, b)
    decreases rank(name) + 1, 0, 0
  {
    var bodies := helpers[name];
    var readings := InlineBodies(helpers, depth - 1, bodies);
    OneCost(name, readings);
    if i :| 0 <= i < |readings| && readings[i].unresolved != [] {
      a, b := Doubted(helpers, rank, rank(name), depth - 1, bodies[i], NOTHING);
      assert bodies[i] in bodies;
    } else {
      var r :| r in readings && !(r.unresolved == [] && r.ms == readings[0].ms);
      var i :| 0 <= i < |readings| && readings[i] == r;
      Exact(helpers, rank, true, rank(name), depth - 1, bodies[0], NOTHING);
      Exact(helpers, rank, true, rank(name), depth - 1, bodies[i], NOTHING);
      a, b := readings[0].ms, readings[i].ms;
      assert bodies[0] in bodies && bodies[i] in bodies;
      assert Spends(helpers, depth - 1, bodies[0], a) && Spends(helpers, depth - 1, bodies[i], b);
    }
  }

  // ------------------------------------------------------------------
  // The promise
  // ------------------------------------------------------------------

  /** A memo left by any earlier readings and a fresh one give the same budget. */
  lemma MemoNeverChangesABudget(helpers: Helpers, rank: string -> nat, limit: nat, body: Node, memo: Memo)
    requires Acyclic(helpers, rank) && CallsBelow(helpers, rank, limit, body)
    requires Right(helpers, rank, memo)
    ensures Visit(helpers, body, {}, Run(NOTHING, memo)).reading == BudgetIn(helpers, body)
    ensures Right(helpers, rank, Visit(helpers, body, {}, Run(NOTHING, memo)).memo)
  {
    MemoIsInvisible(helpers, rank, limit, limit, body, {}, Run(NOTHING, memo));
    MemoIsInvisible(helpers, rank, limit, limit, body, {}, Run(NOTHING, map[]));
  }

  /** A budget with nothing unresolved is what the body spends, whatever each repeated helper name means. */
  lemma BudgetIsNeverAssumed(helpers: Helpers, rank: string -> nat, limit: nat, depth: nat, body: Node)
    requires LegibleFile(helpers, rank, false) && Legible(helpers, rank, false, limit, body) && depth >= limit
    requires BudgetIn(helpers, body).unresolved == []
    ensures Certain(helpers, depth, body, BudgetIn(helpers, body).ms)
  {
    MemoIsInvisible(helpers, rank, limit, depth, body, {}, Run(NOTHING, map[]));
    Exact(helpers, rank, false, limit, depth, body, NOTHING);
  }

  /** Where every options object can be read, something is unresolved exactly when the cost is not determined. */
  lemma UnresolvedExactlyWhenUncertain(helpers: Helpers, rank: string -> nat, limit: nat, depth: nat, body: Node)
    requires LegibleFile(helpers, rank, true) && Legible(helpers, rank, true, limit, body) && depth >= limit
    ensures BudgetIn(helpers, body).unresolved == [] <==> exists ms :: Certain(helpers, depth, body, ms)
    ensures forall ms :: Certain(helpers, depth, body, ms) ==> ms == BudgetIn(helpers, body).ms
  {
    MemoIsInvisible(helpers, rank, limit, depth, body, {}, Run(NOTHING, map[]));
    if BudgetIn(helpers, body).unresolved == [] {
      Exact(helpers, rank, true, limit, depth, body, NOTHING);
      assert Spends(helpers, depth, body, BudgetIn(helpers, body).ms);
    } else {
      var a, b := Doubted(helpers, rank, limit, depth, body, NOTHING);
    }
  }

  // ------------------------------------------------------------------
  // Where the promise stops
  // ------------------------------------------------------------------

  function Waits(name: string, ms: int): Node {
    Call(name, true, [Inert, Options([Timeout(Expression("", Some(ms)))])], "", [])
  }

  function Calls(name: string): Node { Call(name, true, [], "", []) }

  /** A helper named like a waiter is charged as a bare one, and nothing says so. */
  lemma WaiterNamedHelperIsUnderCharged()
    ensures var helpers := map["waitForSlow" := [Waits("findByText", 5000)]];
            && BudgetIn(helpers, Calls("waitForSlow")) == Reading(1000, [])
            && Certain(helpers, 1, Calls("waitForSlow"), 5000)
  {
    var body := Waits("findByText", 5000);
    var helpers := map["waitForSlow" := [body]];
    assert IsWaiter("waitForSlow") && IsWaiter("findByText");
    assert Tail(body.arguments) == [Options([Timeout(Expression("", Some(5000)))])];
    assert TimeoutOf([Timeout(Expression("", Some(5000)))]) == Says(Expression("", Some(5000)));
    assert StatedBy(body.arguments) == Says(Expression("", Some(5000)));
    forall n ensures Spends(helpers, 0, body, n) <==> n == 5000 {
      assert CallSpends(helpers, 0, body, 5000);
    }
    assert body in helpers["waitForSlow"];
    forall n ensures Spends(helpers, 1, Calls("waitForSlow"), n) <==> n == 5000 {
      assert HelperSpends(helpers, 1, "waitForSlow", n) <==> n == 5000;
      assert CallSpends(helpers, 1, Calls("waitForSlow"), n) <==> n == 5000;
    }
    assert StatedIn([]) == Silent;
  }

  /** Two helpers that call each other, the first waiting one second and the second two. */
  const MUTUAL: Helpers := map[
    "a" := [Other([Calls("b"), Waits("findByText", 1000)])],
    "b" := [Other([Calls("a"), Waits("findByText", 2000)])]]

  /** One waiter beside one call: the call's cost and the waiter's. */
  lemma BodyReading(helpers: Helpers, name: string, other: string, ms: int, path: set<string>, memo: Memo, cost: Run)
    requires name in helpers && helpers[name] == [Other([Calls(other), Waits("findByText", ms)])]
    requires other in helpers && !IsWaiter(other) && name !in memo && name !in path
    requires cost == HelperCost(helpers, other, path + {name}, memo) && cost.reading.unresolved == []
    ensures var reading := Reading(cost.reading.ms + ms, []);
      HelperCost(helpers, name, path, memo) == Run(reading, if path == {} then cost.memo[name := reading] else cost.memo)
  {
    var start, done := Run(NOTHING, memo), Run(Reading(cost.reading.ms + ms, []), cost.memo);
    CallThenWaiter(helpers, other, ms, path + {name}, start, cost, done);
    assert helpers[name][0] == Other([Calls(other), Waits("findByText", ms)]);
    SoleReading(helpers, name, path, memo, done);
  }

  lemma CallThenWaiter(helpers: Helpers, other: string, ms: int, path: set<string>, start: Run, cost: Run, done: Run)
    requires other in helpers && !IsWaiter(other) && start.reading == NOTHING
    requires cost == HelperCost(helpers, other, path, start.memo) && cost.reading.unresolved == []
    requires done == Run(Reading(cost.reading.ms + ms, []), cost.memo)
    ensures Visit(helpers, Other([Calls(other), Waits("findByText", ms)]), path, start) == done
  {
    var call, waiter := Calls(other), Waits("findByText", ms);
    CallReading(helpers, other, path, start);
    assert Visit(helpers, call, path, start) == cost;
    WaitsReading(helpers, ms, path, cost);
    assert Visit(helpers, waiter, path, cost) == done;
    PairReading(helpers, call, waiter, path, start);
  }

  lemma SoleReading(helpers: Helpers, name: string, path: set<string>, memo: Memo, done: Run)
    requires name in helpers && |helpers[name]| == 1 && name !in memo && name !in path
    requires done == Visit(helpers, helpers[name][0], path + {name}, Run(NOTHING, memo)) && done.reading.unresolved == []
    ensures HelperCost(helpers, name, path, memo)
         == Run(done.reading, if path == {} then done.memo[name := done.reading] else done.memo)
  {
    assert BodyReadings(helpers, helpers[name][1..], path + {name}, done.memo) == ([], done.memo);
    assert [done.reading] + [] == [done.reading];
    assert BodyReadings(helpers, helpers[name], path + {name}, memo) == ([done.reading], done.memo);
    OneCost(name, [done.reading]);
  }

  lemma WaitsReading(helpers: Helpers, ms: int, path: set<string>, run: Run)
    ensures Visit(helpers, Waits("findByText", ms), path, run)
         == Run(Reading(run.reading.ms + ms, run.reading.unresolved), run.memo)
  {
    var stated := [Timeout(Expression("", Some(ms)))];
    assert IsWaiter("findByText");
    assert Tail([Inert, Options(stated)]) == [Options(stated)];
    assert TimeoutIn(stated) == Says(stated[0].value);
    assert [Options(stated)][1..] == [];
    assert Among([Options(stated)], TimeoutIn, Silent) == Among([], TimeoutIn, Says(stated[0].value));
    assert StatedIn([Inert, Options(stated)]) == Says(stated[0].value);
  }

  lemma CallReading(helpers: Helpers, name: string, path: set<string>, run: Run)
    requires name in helpers && !IsWaiter(name) && run.reading.unresolved == []
    requires HelperCost(helpers, name, path, run.memo).reading.unresolved == []
    ensures var cost := HelperCost(helpers, name, path, run.memo);
            Visit(helpers, Calls(name), path, run) == Run(Reading(run.reading.ms + cost.reading.ms, []), cost.memo)
  {
    var cost := HelperCost(helpers, name, path, run.memo);
    var taken := Run(TakeHelper(cost.reading, run.reading), cost.memo);
    assert taken == Run(Reading(run.reading.ms + cost.reading.ms, []), cost.memo);
    assert VisitAll(helpers, [], path, taken) == taken;
  }

  lemma PairReading(helpers: Helpers, first: Node, second: Node, path: set<string>, run: Run)
    ensures Visit(helpers, Other([first, second]), path, run)
         == Visit(helpers, second, path, Visit(helpers, first, path, run))
  {
    assert [first, second][1..] == [second];
    var next := Visit(helpers, first, path, run);
    assert VisitAll(helpers, [second], path, next) == Visit(helpers, second, path, next);
  }

  /** Helpers that call each other read differently in the two orders, with nothing unresolved either time. */
  lemma MutualHelpersReadByOrder()
    ensures BudgetIn(MUTUAL, Other([Calls("a"), Calls("b")])) == Reading(8000, [])
    ensures BudgetIn(MUTUAL, Other([Calls("b"), Calls("a")])) == Reading(7000, [])
  {
    var start := Run(NOTHING, map[]);
    var three := Reading(3000, []);
    assert {} + {"a"} == {"a"} && {} + {"b"} == {"b"};

    BodyReading(MUTUAL, "b", "a", 2000, {"a"}, map[], start);
    BodyReading(MUTUAL, "a", "b", 1000, {}, map[], Run(Reading(2000, []), map[]));
    BodyReading(MUTUAL, "b", "a", 2000, {}, map["a" := three], Run(three, map["a" := three]));
    CallReading(MUTUAL, "a", {}, start);
    CallReading(MUTUAL, "b", {}, Run(three, map["a" := three]));
    PairReading(MUTUAL, Calls("a"), Calls("b"), {}, start);

    BodyReading(MUTUAL, "a", "b", 1000, {"b"}, map[], start);
    BodyReading(MUTUAL, "b", "a", 2000, {}, map[], Run(Reading(1000, []), map[]));
    BodyReading(MUTUAL, "a", "b", 1000, {}, map["b" := three], Run(three, map["b" := three]));
    CallReading(MUTUAL, "b", {}, start);
    CallReading(MUTUAL, "a", {}, Run(three, map["b" := three]));
    PairReading(MUTUAL, Calls("b"), Calls("a"), {}, start);
  }
}
