/**
 What a test may spend waiting, independently of any reader: run the body, and at
 every call to a helper run one of the declarations of its name. Against that
 meaning the reader of WaiterBudget reports every uncertainty and is otherwise exact.
 */
module WaiterMeaning {
  import opened WaiterSyntax
  import opened WaiterBudget

  // ------------------------------------------------------------------
  // Meaning
  // ------------------------------------------------------------------

  /** What one waiter may spend: what it states, or anything when that is out of sight. */
  predicate WaiterSpends(stated: Stated, ms: int) {
    match stated
    case Silent => ms == ASYNC_UTIL_TIMEOUT_MS
    case Opaque => true
    case Says(value) => value.folded.Some? ==> ms == value.folded.value
  }

  /** `node` may spend `ms` waiting, following calls at most `depth` helpers deep. */
  ghost predicate Spends(helpers: Helpers, depth: nat, node: Node, ms: int)
    decreases depth, 1, node
  {
    match node
    case Declaration(name, children) =>
      if name in helpers then ms == 0 else SpendsAll(helpers, depth, children, ms)
    case Other(children) => SpendsAll(helpers, depth, children, ms)
    case Call(_, _, _, _, children) =>
      exists own: int :: CallSpends(helpers, depth, node, own) && SpendsAll(helpers, depth, children, ms - own)
  }

  /** What a call spends itself: a helper its body, a waiter its timeout. */
  ghost predicate CallSpends(helpers: Helpers, depth: nat, node: Node, ms: int)
    requires node.Call?
    decreases depth, 0, 1
  {
    if node.bare && node.name in helpers then HelperSpends(helpers, depth, node.name, ms)
    else if IsWaiter(node.name) then WaiterSpends(StatedBy(node.arguments), ms)
    else ms == 0
  }

  ghost predicate SpendsAll(helpers: Helpers, depth: nat, nodes: seq<Node>, ms: int)
    decreases depth, 1, nodes
  {
    if nodes == [] then ms == 0
    else exists first: int ::
      Spends(helpers, depth, nodes[0], first) && SpendsAll(helpers, depth, nodes[1..], ms - first)
  }

  /** A call to a helper may mean any declaration of its name. */
  ghost predicate HelperSpends(helpers: Helpers, depth: nat, name: string, ms: int)
    requires name in helpers
    decreases depth, 0, 0
  {
    depth > 0 && exists body :: body in helpers[name] && Spends(helpers, depth - 1, body, ms)
  }

  /** `node` spends `ms` whatever is meant. */
  ghost predicate Certain(helpers: Helpers, depth: nat, node: Node, ms: int) {
    forall n :: Spends(helpers, depth, node, n) <==> n == ms
  }

  // ------------------------------------------------------------------
  // What the reader assumes of a file
  // ------------------------------------------------------------------

  /** Every helper `node` calls has rank below `limit`. */
  ghost predicate CallsBelow(helpers: Helpers, rank: string -> nat, limit: nat, node: Node)
    decreases node
  {
    match node
    case Declaration(name, children) =>
      name in helpers || forall c :: c in children ==> CallsBelow(helpers, rank, limit, c)
    case Other(children) => forall c :: c in children ==> CallsBelow(helpers, rank, limit, c)
    case Call(name, bare, _, _, children) =>
      && (bare && name in helpers ==> rank(name) < limit)
      && forall c :: c in children ==> CallsBelow(helpers, rank, limit, c)
  }

  ghost predicate CallsBelowAll(helpers: Helpers, rank: string -> nat, limit: nat, nodes: seq<Node>) {
    forall c :: c in nodes ==> CallsBelow(helpers, rank, limit, c)
  }

  /** No helper reaches itself: each calls only helpers of lower rank. */
  ghost predicate Acyclic(helpers: Helpers, rank: string -> nat) {
    forall name :: name in helpers ==> CallsBelowAll(helpers, rank, rank(name), helpers[name])
  }

  /** Every waiter in `node` is keyed. */
  ghost predicate AllKeyed(helpers: Helpers, exact: bool, node: Node)
    decreases node
  {
    match node
    case Declaration(name, children) => name in helpers || forall c :: c in children ==> AllKeyed(helpers, exact, c)
    case Other(children) => forall c :: c in children ==> AllKeyed(helpers, exact, c)
    case Call(name, _, arguments, _, children) =>
      && (IsWaiter(name) ==> Keyed(exact, arguments))
      && forall c :: c in children ==> AllKeyed(helpers, exact, c)
  }

  ghost predicate Legible(helpers: Helpers, rank: string -> nat, exact: bool, limit: nat, node: Node) {
    CallsBelow(helpers, rank, limit, node) && AllKeyed(helpers, exact, node)
  }

  ghost predicate LegibleAll(helpers: Helpers, rank: string -> nat, exact: bool, limit: nat, nodes: seq<Node>) {
    forall c :: c in nodes ==> Legible(helpers, rank, exact, limit, c)
  }

  /** An acyclic file all of whose waiters can be read, with no helper named like one. */
  ghost predicate LegibleFile(helpers: Helpers, rank: string -> nat, exact: bool) {
    && Acyclic(helpers, rank)
    && forall name :: name in helpers ==>
         helpers[name] != [] && !IsWaiter(name) && forall body :: body in helpers[name] ==> AllKeyed(helpers, exact, body)
  }

  // ------------------------------------------------------------------
  // Reading without a memo or a path
  // ------------------------------------------------------------------

  /** What a node's call adds when `helper` is what a helper costs. */
  function Inline(helpers: Helpers, depth: nat, node: Node, reading: Reading): Reading
    decreases depth, 1, node
  {
    match node
    case Declaration(name, children) =>
      if name in helpers then reading else InlineAll(helpers, depth, children, reading)
    case Other(children) => InlineAll(helpers, depth, children, reading)
    case Call(name, bare, arguments, text, children) =>
      var taken :=
        if IsWaiter(name) then TakeWaiter(StatedIn(arguments), text, reading)
        else if bare && name in helpers then TakeHelper(InlineHelper(helpers, depth, name), reading)
        else reading;
      InlineAll(helpers, depth, children, taken)
  }

  function InlineAll(helpers: Helpers, depth: nat, nodes: seq<Node>, reading: Reading): Reading
    decreases depth, 1, nodes
  {
    if nodes == [] then reading
    else InlineAll(helpers, depth, nodes[1..], Inline(helpers, depth, nodes[0], reading))
  }

  function InlineHelper(helpers: Helpers, depth: nat, name: string): Reading
    requires name in helpers
    decreases depth, 0
  {
    if depth == 0 || helpers[name] == [] then NOTHING
    else Settle(name, InlineBodies(helpers, depth - 1, helpers[name]))
  }

  function InlineBodies(helpers: Helpers, depth: nat, bodies: seq<Node>): (readings: seq<Reading>)
    ensures |readings| == |bodies|
    ensures forall i :: 0 <= i < |bodies| ==> readings[i] == Inline(helpers, depth, bodies[i], NOTHING)
    decreases depth, 1, bodies
  {
    if bodies == [] then []
    else [Inline(helpers, depth, bodies[0], NOTHING)] + InlineBodies(helpers, depth, bodies[1..])
  }

  lemma {:induction false} DepthIsEnough(helpers: Helpers, rank: string -> nat, limit: nat, node: Node,
                                         reading: Reading, d1: nat, d2: nat)
    requires Acyclic(helpers, rank) && CallsBelow(helpers, rank, limit, node)
    requires d1 >= limit && d2 >= limit
    ensures Inline(helpers, d1, node, reading) == Inline(helpers, d2, node, reading)
    decreases limit, 1, node
  {
    if node.Call? {
      var taken := reading;
      if IsWaiter(node.name) {
        taken := TakeWaiter(StatedIn(node.arguments), node.text, reading);
      } else if node.bare && node.name in helpers {
        DepthIsEnoughForHelper(helpers, rank, node.name, d1, d2);
        taken := TakeHelper(InlineHelper(helpers, d1, node.name), reading);
      }
      DepthIsEnoughForAll(helpers, rank, limit, node.children, taken, d1, d2);
    } else if node.Other? || node.name !in helpers {
      DepthIsEnoughForAll(helpers, rank, limit, node.children, reading, d1, d2);
    }
  }

  lemma {:induction false} DepthIsEnoughForAll(helpers: Helpers, rank: string -> nat, limit: nat,
                                               nodes: seq<Node>, reading: Reading, d1: nat, d2: nat)
    requires Acyclic(helpers, rank) && CallsBelowAll(helpers, rank, limit, nodes)
    requires d1 >= limit && d2 >= limit
    ensures InlineAll(helpers, d1, nodes, reading) == InlineAll(helpers, d2, nodes, reading)
    decreases limit, 1, nodes
  {
    if nodes != [] {
      DepthIsEnough(helpers, rank, limit, nodes[0], reading, d1, d2);
      DepthIsEnoughForAll(helpers, rank, limit, nodes[1..], Inline(helpers, d1, nodes[0], reading), d1, d2);
    }
  }

  lemma {:induction false} DepthIsEnoughForHelper(helpers: Helpers, rank: string -> nat, name: string,
                                                  d1: nat, d2: nat)
    requires Acyclic(helpers, rank) && name in helpers
    requires d1 > rank(name) && d2 > rank(name)
    ensures InlineHelper(helpers, d1, name) == InlineHelper(helpers, d2, name)
    decreases rank(name) + 1, 0
  {
    var bodies := helpers[name];
    var one, other := InlineBodies(helpers, d1 - 1, bodies), InlineBodies(helpers, d2 - 1, bodies);
    forall i | 0 <= i < |one| ensures one[i] == other[i] {
      DepthIsEnough(helpers, rank, rank(name), bodies[i], NOTHING, d1 - 1, d2 - 1);
    }
    assert one == other;
  }

  // ------------------------------------------------------------------
  // The memo and the path change nothing
  // ------------------------------------------------------------------

  /** What the memo holds for a name is what the name costs. */
  ghost predicate Right(helpers: Helpers, rank: string -> nat, memo: Memo) {
    forall name :: name in memo ==> name in helpers && memo[name] == InlineHelper(helpers, rank(name) + 1, name)
  }

  /** Only helpers of rank `limit` or more are being read. */
  ghost predicate Above(rank: string -> nat, limit: nat, path: set<string>) {
    forall name :: name in path ==> rank(name) >= limit
  }

  /** Reading with a memo and a path is reading without either, and leaves the memo right. */
  lemma {:induction false} MemoIsInvisible(helpers: Helpers, rank: string -> nat, limit: nat, depth: nat,
                                           node: Node, path: set<string>, run: Run)
    requires Acyclic(helpers, rank) && CallsBelow(helpers, rank, limit, node)
    requires depth >= limit && Above(rank, limit, path) && Right(helpers, rank, run.memo)
    ensures Visit(helpers, node, path, run).reading == Inline(helpers, depth, node, run.reading)
    ensures Right(helpers, rank, Visit(helpers, node, path, run).memo)
    decreases limit, 1, node
  {
    if node.Call? {
      var taken := run;
      if IsWaiter(node.name) {
        taken := run.(reading := TakeWaiter(StatedIn(node.arguments), node.text, run.reading));
      } else if node.bare && node.name in helpers {
        HelperMemoIsInvisible(helpers, rank, limit, depth, node.name, path, run.memo);
        var helper := HelperCost(helpers, node.name, path, run.memo);
        taken := Run(TakeHelper(helper.reading, run.reading), helper.memo);
      }
      MemoIsInvisibleInAll(helpers, rank, limit, depth, node.children, path, taken);
    } else if node.Other? || node.name !in helpers {
      MemoIsInvisibleInAll(helpers, rank, limit, depth, node.children, path, run);
    }
  }

  lemma {:induction false} MemoIsInvisibleInAll(helpers: Helpers, rank: string -> nat, limit: nat, depth: nat,
                                                nodes: seq<Node>, path: set<string>, run: Run)
    requires Acyclic(helpers, rank) && CallsBelowAll(helpers, rank, limit, nodes)
    requires depth >= limit && Above(rank, limit, path) && Right(helpers, rank, run.memo)
    ensures VisitAll(helpers, nodes, path, run).reading == InlineAll(helpers, depth, nodes, run.reading)
    ensures Right(helpers, rank, VisitAll(helpers, nodes, path, run).memo)
    decreases limit, 1, nodes
  {
    if nodes != [] {
      MemoIsInvisible(helpers, rank, limit, depth, nodes[0], path, run);
      MemoIsInvisibleInAll(helpers, rank, limit, depth, nodes[1..], path, Visit(helpers, nodes[0], path, run));
    }
  }

  lemma {:induction false} HelperMemoIsInvisible(helpers: Helpers, rank: string -> nat, limit: nat, depth: nat,
                                                 name: string, path: set<string>, memo: Memo)
    requires Acyclic(helpers, rank) && name in helpers && rank(name) < limit
    requires depth >= limit && Above(rank, limit, path) && Right(helpers, rank, memo)
    ensures HelperCost(helpers, name, path, memo).reading == InlineHelper(helpers, depth, name)
    ensures Right(helpers, rank, HelperCost(helpers, name, path, memo).memo)
    decreases rank(name) + 1, 0, 1
  {
    DepthIsEnoughForHelper(helpers, rank, name, depth, rank(name) + 1);
    if name in memo {
      assert HelperCost(helpers, name, path, memo) == Run(memo[name], memo);
    } else if helpers[name] != [] {
      FirstReadingIsInvisible(helpers, rank, depth, name, path, memo);
    }
  }

  /** The first reading of a helper is its inlined one. */
  lemma {:induction false} FirstReadingIsInvisible(helpers: Helpers, rank: string -> nat, depth: nat,
                                                   name: string, path: set<string>, memo: Memo)
    requires Acyclic(helpers, rank) && name in helpers && name !in memo && helpers[name] != [] && depth > rank(name)
    requires Above(rank, rank(name) + 1, path) && Right(helpers, rank, memo)
    requires InlineHelper(helpers, depth, name) == InlineHelper(helpers, rank(name) + 1, name)
    ensures HelperCost(helpers, name, path, memo).reading == InlineHelper(helpers, depth, name)
    ensures Right(helpers, rank, HelperCost(helpers, name, path, memo).memo)
    decreases rank(name) + 1, 0, 0
  {
    var inner := path + {name};
    AboveMore(rank, name, path);
    DeclarationsRead(helpers, rank, depth, name, inner, memo);
    var (readings, after) := BodyReadings(helpers, helpers[name], inner, memo);
    KeepReading(helpers, rank, depth, name, path, memo, readings, after);
  }

  lemma {:induction false} DeclarationsRead(helpers: Helpers, rank: string -> nat, depth: nat,
                                            name: string, inner: set<string>, memo: Memo)
    requires Acyclic(helpers, rank) && name in helpers && depth > rank(name)
    requires Above(rank, rank(name), inner) && Right(helpers, rank, memo)
    ensures BodyReadings(helpers, helpers[name], inner, memo).0 == InlineBodies(helpers, depth - 1, helpers[name])
    ensures Right(helpers, rank, BodyReadings(helpers, helpers[name], inner, memo).1)
    decreases rank(name), 2
  {
    BodiesMemoIsInvisible(helpers, rank, rank(name), depth - 1, helpers[name], inner, memo);
  }

  lemma AboveMore(rank: string -> nat, name: string, path: set<string>)
    requires Above(rank, rank(name) + 1, path)
    ensures name !in path && Above(rank, rank(name), path + {name})
  {
  }

  /** Settling what the declarations came to, and keeping it. */
  lemma KeepReading(helpers: Helpers, rank: string -> nat, depth: nat, name: string, path: set<string>, memo: Memo,
                    readings: seq<Reading>, after: Memo)
    requires name in helpers && name !in memo && name !in path && helpers[name] != [] && depth > 0
    requires BodyReadings(helpers, helpers[name], path + {name}, memo) == (readings, after)
    requires readings == InlineBodies(helpers, depth - 1, helpers[name]) && Right(helpers, rank, after)
    requires InlineHelper(helpers, depth, name) == InlineHelper(helpers, rank(name) + 1, name)
    ensures HelperCost(helpers, name, path, memo).reading == InlineHelper(helpers, depth, name)
    ensures Right(helpers, rank, HelperCost(helpers, name, path, memo).memo)
  {
    ReadAfresh(helpers, name, path, memo, readings, after);
    StaysRight(helpers, rank, after, name, Settle(name, readings));
  }

  lemma StaysRight(helpers: Helpers, rank: string -> nat, memo: Memo, name: string, reading: Reading)
    requires Right(helpers, rank, memo) && name in helpers && reading == InlineHelper(helpers, rank(name) + 1, name)
    ensures Right(helpers, rank, memo[name := reading])
  {
  }

  /** A helper in neither the memo nor the path is read from its declarations. */
  lemma ReadAfresh(helpers: Helpers, name: string, path: set<string>, memo: Memo, readings: seq<Reading>, after: Memo)
    requires name in helpers && name !in memo && name !in path && helpers[name] != []
    requires BodyReadings(helpers, helpers[name], path + {name}, memo) == (readings, after)
    ensures var reading := Settle(name, readings);
            HelperCost(helpers, name, path, memo) == Run(reading, if path == {} then after[name := reading] else after)
  {
  }

  lemma {:induction false} BodiesMemoIsInvisible(helpers: Helpers, rank: string -> nat, limit: nat, depth: nat,
                                                 bodies: seq<Node>, path: set<string>, memo: Memo)
    requires Acyclic(helpers, rank) && CallsBelowAll(helpers, rank, limit, bodies)
    requires depth >= limit && Above(rank, limit, path) && Right(helpers, rank, memo)
    ensures BodyReadings(helpers, bodies, path, memo).0 == InlineBodies(helpers, depth, bodies)
    ensures Right(helpers, rank, BodyReadings(helpers, bodies, path, memo).1)
    decreases limit, 1, bodies
  {
    if bodies != [] {
      var run := Run(NOTHING, memo);
      MemoIsInvisible(helpers, rank, limit, depth, bodies[0], path, run);
      BodiesMemoIsInvisible(helpers, rank, limit, depth, bodies[1..], path,
                            Visit(helpers, bodies[0], path, run).memo);
    }
  }

  // ------------------------------------------------------------------
  // Every node may spend something
  // ------------------------------------------------------------------

  lemma {:induction false} Solvent(helpers: Helpers, rank: string -> nat, exact: bool, limit: nat, depth: nat, node: Node)
    returns (ms: int)
    requires LegibleFile(helpers, rank, exact) && Legible(helpers, rank, exact, limit, node) && depth >= limit
    ensures Spends(helpers, depth, node, ms)
    decreases limit, 1, node
  {
    if node.Call? {
      var own := 0;
      if node.bare && node.name in helpers {
        own := SolventHelper(helpers, rank, exact, depth, node.name);
      } else if IsWaiter(node.name) {
        own := SolventWaiter(StatedBy(node.arguments));
      }
      var rest := SolventAll(helpers, rank, exact, limit, depth, node.children);
      ms := own + rest;
      assert CallSpends(helpers, depth, node, own) && ms - own == rest;
    } else if node.Other? || node.name !in helpers {
      ms := SolventAll(helpers, rank, exact, limit, depth, node.children);
    } else {
      ms := 0;
    }
  }

  lemma SolventWaiter(stated: Stated) returns (ms: int)
    ensures WaiterSpends(stated, ms)
  {
    ms := if stated.Says? && stated.value.folded.Some? then stated.value.folded.value else ASYNC_UTIL_TIMEOUT_MS;
  }

  lemma {:induction false} SolventAll(helpers: Helpers, rank: string -> nat, exact: bool, limit: nat, depth: nat,
                                      nodes: seq<Node>)
    returns (ms: int)
    requires LegibleFile(helpers, rank, exact) && LegibleAll(helpers, rank, exact, limit, nodes) && depth >= limit
    ensures SpendsAll(helpers, depth, nodes, ms)
    decreases limit, 1, nodes
  {
    ms := 0;
    if nodes != [] {
      var first := Solvent(helpers, rank, exact, limit, depth, nodes[0]);
      var rest := SolventAll(helpers, rank, exact, limit, depth, nodes[1..]);
      ms := first + rest;
      assert ms - first == rest;
    }
  }

  lemma {:induction false} SolventHelper(helpers: Helpers, rank: string -> nat, exact: bool, depth: nat, name: string)
    returns (ms: int)
    requires LegibleFile(helpers, rank, exact) && name in helpers && depth > rank(name)
    ensures HelperSpends(helpers, depth, name, ms)
    decreases rank(name) + 1, 0
  {
    var body := helpers[name][0];
    ms := Solvent(helpers, rank, exact, rank(name), depth - 1, body);
  }

  // ------------------------------------------------------------------
  // Nothing reported: the reading is exact
  // ------------------------------------------------------------------

  lemma {:induction false} MergeKeepsDoubts(doubts: seq<Doubt>, more: seq<Doubt>)
    ensures Merge(doubts, more) == [] <==> doubts == [] && more == []
    decreases more
  {
    if more != [] {
      MergeKeepsDoubts(if more[0] in doubts then doubts else doubts + [more[0]], more[1..]);
    }
  }

  lemma {:induction false} NoDoubts(readings: seq<Reading>)
    ensures Doubts(readings) == [] <==> forall r :: r in readings ==> r.unresolved == []
  {
    if readings != [] {
      NoDoubts(readings[1..]);
      assert forall r :: r in readings <==> r == readings[0] || r in readings[1..];
    }
  }

  /** What one call adds to a reading. */
  function Taken(helpers: Helpers, depth: nat, node: Node, reading: Reading): Reading
    requires node.Call?
  {
    if IsWaiter(node.name) then TakeWaiter(StatedIn(node.arguments), node.text, reading)
    else if node.bare && node.name in helpers then TakeHelper(InlineHelper(helpers, depth, node.name), reading)
    else reading
  }

  /** A doubt, once taken, stays. */
  lemma {:induction false} DoubtsStay(helpers: Helpers, depth: nat, node: Node, reading: Reading)
    requires Inline(helpers, depth, node, reading).unresolved == []
    ensures reading.unresolved == []
    decreases depth, 1, node
  {
    if node.Call? {
      var taken := Taken(helpers, depth, node, reading);
      DoubtsStayInAll(helpers, depth, node.children, taken);
      if !IsWaiter(node.name) && node.bare && node.name in helpers {
        MergeKeepsDoubts(reading.unresolved, InlineHelper(helpers, depth, node.name).unresolved);
      }
    } else if node.Other? || node.name !in helpers {
      DoubtsStayInAll(helpers, depth, node.children, reading);
    }
  }

  lemma {:induction false} DoubtsStayInAll(helpers: Helpers, depth: nat, nodes: seq<Node>, reading: Reading)
    requires InlineAll(helpers, depth, nodes, reading).unresolved == []
    ensures reading.unresolved == []
    decreases depth, 1, nodes
  {
    if nodes != [] {
      var next := Inline(helpers, depth, nodes[0], reading);
      DoubtsStayInAll(helpers, depth, nodes[1..], next);
      DoubtsStay(helpers, depth, nodes[0], reading);
    }
  }
}
