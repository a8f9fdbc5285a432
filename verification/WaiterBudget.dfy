/**
 The waiter budget of one test (frontend/scripts/test-budget.ts, budgetOf): how
 long the waiters it runs in sequence may spend, following awaited calls into
 the helpers one file declares.

 `Visit` is the reading as a function of the state the reader carries; the
 class below is the reader itself, proved to compute it.
 */
module WaiterBudget {
  import opened WaiterSyntax

  /** What the reader could not read. */
  datatype Doubt =
    | Unread(text: string)
    | Disagree(name: string, declarations: nat, costs: set<int>)

  datatype Reading = Reading(ms: int, unresolved: seq<Doubt>)

  const NOTHING := Reading(0, [])

  type Memo = map<string, Reading>

  /** The reading so far and the memo table. */
  datatype Run = Run(reading: Reading, memo: Memo)

  // ------------------------------------------------------------------
  // The reading as a function
  // ------------------------------------------------------------------

  /** What a waiter adds. */
  function TakeWaiter(stated: Stated, text: string, reading: Reading): Reading {
    match stated
    case Silent => reading.(ms := reading.ms + ASYNC_UTIL_TIMEOUT_MS)
    case Opaque => reading.(unresolved := reading.unresolved + [Unread(text)])
    case Says(value) =>
      match value.folded
      case None => reading.(unresolved := reading.unresolved + [Unread(value.text)])
      case Some(ms) => reading.(ms := reading.ms + ms)
  }

  /** The doubts of `more` not yet among `doubts`, each appended once. */
  function Merge(doubts: seq<Doubt>, more: seq<Doubt>): seq<Doubt>
    decreases more
  {
    if more == [] then doubts
    else Merge(if more[0] in doubts then doubts else doubts + [more[0]], more[1..])
  }

  /** What a call to a helper adds. */
  function TakeHelper(helper: Reading, reading: Reading): Reading {
    Reading(reading.ms + helper.ms, Merge(reading.unresolved, helper.unresolved))
  }

  function Doubts(readings: seq<Reading>): seq<Doubt> {
    if readings == [] then [] else readings[0].unresolved + Doubts(readings[1..])
  }

  /** One reading for a name, from those of its declarations: their common cost, or that they disagree. */
  function Settle(name: string, readings: seq<Reading>): Reading {
    var costs := set r | r in readings :: r.ms;
    if |costs| == 1 then Reading(if readings == [] then 0 else readings[0].ms, Doubts(readings))
    else Reading(0, [Disagree(name, |readings|, costs)])
  }

  /** The reading of one node, added to a reading so far. */
  function Visit(helpers: Helpers, node: Node, path: set<string>, run: Run): Run
    decreases helpers.Keys - path, 1, node
  {
    match node
    case Declaration(name, children) =>
      if name in helpers then run else VisitAll(helpers, children, path, run)
    case Other(children) => VisitAll(helpers, children, path, run)
    case Call(name, bare, arguments, text, children) =>
      var taken :=
        if IsWaiter(name) then run.(reading := TakeWaiter(StatedIn(arguments), text, run.reading))
        else if bare && name in helpers then
          var helper := HelperCost(helpers, name, path, run.memo);
          Run(TakeHelper(helper.reading, run.reading), helper.memo)
        else run;
      VisitAll(helpers, children, path, taken)
  }

  function VisitAll(helpers: Helpers, nodes: seq<Node>, path: set<string>, run: Run): Run
    decreases helpers.Keys - path, 1, nodes
  {
    if nodes == [] then run
    else VisitAll(helpers, nodes[1..], path, Visit(helpers, nodes[0], path, run))
  }

  /** What one call to a helper costs: from the memo, nothing inside its own reading, else from its declarations. */
  function HelperCost(helpers: Helpers, name: string, path: set<string>, memo: Memo): Run
    requires name in helpers
    decreases helpers.Keys - path, 0
  {
    if name in memo then Run(memo[name], memo)
    else if name in path || helpers[name] == [] then Run(NOTHING, memo)
    else
      ShorterPath(helpers, path, name);
      var (readings, after) := BodyReadings(helpers, helpers[name], path + {name}, memo);
      var reading := Settle(name, readings);
      Run(reading, if path == {} then after[name := reading] else after)
  }

  function BodyReadings(helpers: Helpers, bodies: seq<Node>, path: set<string>, memo: Memo): (seq<Reading>, Memo)
    decreases helpers.Keys - path, 1, bodies
  {
    if bodies == [] then ([], memo)
    else
      var first := Visit(helpers, bodies[0], path, Run(NOTHING, memo));
      var (rest, after) := BodyReadings(helpers, bodies[1..], path, first.memo);
      ([first.reading] + rest, after)
  }

  /** Following a helper that is not on the path leaves fewer that are not. */
  lemma ShorterPath(helpers: Helpers, path: set<string>, name: string)
    requires name in helpers && name !in path
    ensures helpers.Keys - (path + {name}) < helpers.Keys - path
  {
    assert name in helpers.Keys - path && name !in helpers.Keys - (path + {name});
  }

  /** The reading of a whole body, on a fresh path and an empty memo. */
  function BudgetIn(helpers: Helpers, body: Node): Reading {
    Visit(helpers, body, {}, Run(NOTHING, map[])).reading
  }

  // ------------------------------------------------------------------
  // The reader
  // ------------------------------------------------------------------

  /** What one reading has added up so far. */
  class Tally {
    var ms: int
    var unresolved: seq<Doubt>

    constructor ()
      ensures Total() == NOTHING
    {
      ms, unresolved := 0, [];
    }

    function Total(): Reading
      reads this
    {
      Reading(ms, unresolved)
    }

    method TakeWaiterCall(arguments: seq<Argument>, text: string)
      modifies this
      ensures Total() == TakeWaiter(StatedIn(arguments), text, old(Total()))
    {
      var stated := StatedTimeout(arguments);
      match stated
      case Silent => ms := ms + ASYNC_UTIL_TIMEOUT_MS;
      case Opaque => unresolved := unresolved + [Unread(text)];
      case Says(value) =>
        if value.folded.None? {
          unresolved := unresolved + [Unread(value.text)];
        } else {
          ms := ms + value.folded.value;
        }
    }

    method TakeHelperCost(helper: Reading)
      modifies this
      ensures Total() == TakeHelper(helper, old(Total()))
      ensures old(unresolved) <= unresolved
      ensures forall doubt :: doubt in unresolved <==> doubt in old(unresolved) || doubt in helper.unresolved
    {
      ms := ms + helper.ms;
      var items := helper.unresolved;
      for i := 0 to |items|
        invariant ms == old(ms) + helper.ms
        invariant Merge(old(unresolved), items) == Merge(unresolved, items[i..])
        invariant old(unresolved) <= unresolved
        invariant forall doubt :: doubt in unresolved <==> doubt in old(unresolved) || doubt in items[..i]
      {
        if items[i] !in unresolved {
          unresolved := unresolved + [items[i]];
        }
      }
    }
  }

  class Analyser {
    const helpers: Helpers
    var path: set<string>
    var memo: Memo

    constructor (helpers: Helpers)
      ensures this.helpers == helpers && path == {} && memo == map[]
    {
      this.helpers, path, memo := helpers, {}, map[];
    }

    /** The waiter budget of one node, its own tally started afresh. */
    method BudgetOf(node: Node) returns (reading: Reading)
      modifies this
      ensures path == old(path)
      ensures Run(reading, memo) == Visit(helpers, node, path, Run(NOTHING, old(memo)))
      decreases helpers.Keys - path, 1, node, 1
    {
      var tally := new Tally();
      VisitNode(node, tally);
      reading := tally.Total();
    }

    method VisitNode(node: Node, tally: Tally)
      modifies this, tally
      ensures path == old(path)
      ensures Run(tally.Total(), memo) == Visit(helpers, node, path, old(Run(tally.Total(), memo)))
      decreases helpers.Keys - path, 1, node, 0
    {
      if node.Declaration? && node.name in helpers {
        return;
      }
      if node.Call? {
        if IsWaiter(node.name) {
          tally.TakeWaiterCall(node.arguments, node.text);
        } else if node.bare && node.name in helpers {
          var helper := HelperReading(node.name);
          tally.TakeHelperCost(helper);
        }
      }
      ghost var taken := Run(tally.Total(), memo);
      var children := node.children;
      for i := 0 to |children|
        invariant path == old(path)
        invariant VisitAll(helpers, children, path, taken)
               == VisitAll(helpers, children[i..], path, Run(tally.Total(), memo))
      {
        VisitNode(children[i], tally);
      }
    }

    method HelperReading(name: string) returns (reading: Reading)
      requires name in helpers
      modifies this
      ensures path == old(path)
      ensures Run(reading, memo) == HelperCost(helpers, name, path, old(memo))
      decreases helpers.Keys - path, 0
    {
      if name in memo {
        return memo[name];
      }
      if name in path || helpers[name] == [] {
        return NOTHING;
      }
      var outermost := path == {};
      ghost var before := path;
      ShorterPath(helpers, path, name);
      path := path + {name};
      var bodies := helpers[name];
      var readings: seq<Reading> := [];
      for i := 0 to |bodies|
        invariant path == before + {name}
        invariant var all := BodyReadings(helpers, bodies, path, old(memo));
                  var rest := BodyReadings(helpers, bodies[i..], path, memo);
                  all.0 == readings + rest.0 && all.1 == rest.1
      {
        var one := BudgetOf(bodies[i]);
        readings := readings + [one];
      }
      assert readings + [] == readings;
      assert (readings, memo) == BodyReadings(helpers, bodies, path, old(memo));
      path := path - {name};
      assert path == before;
      reading := Settle(name, readings);
      if outermost {
        memo := memo[name := reading];
      }
    }
  }
}
