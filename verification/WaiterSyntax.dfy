/**
 The programs the waiter-budget reader reads, and what the timeout of one call
 is (frontend/scripts/test-budget.ts: the WAITER pattern, timeoutExpression,
 statedTimeout).

 A program is the tree the compiler hands over, with every expression a timeout
 can be written as reduced to its text and the number it folds to, if any.
 */
module WaiterSyntax {
  import opened Wrappers

  const ASYNC_UTIL_TIMEOUT_MS := 1000

  /** A timeout as written, and the number this file's constants give it. */
  datatype Expression = Expression(text: string, folded: Option<int>)

  datatype Property =
    | Spread                          // `...options`
    | Timeout(value: Expression)      // a literal `timeout` key, or the shorthand
    | Accessor                        // a getter, a setter or a method named `timeout`
    | Computed                        // `[key]: value` or `__proto__: base`: what it sets only the run knows
    | Unrelated                       // any other key

  datatype Argument =
    | Inert                           // a shape that cannot carry options
    | Options(properties: seq<Property>)
    | Several                         // `...list`: any number of arguments
    | Unreadable                      // everything else

  datatype Node =
    | Call(name: string, bare: bool, arguments: seq<Argument>, text: string, children: seq<Node>)
    | Declaration(name: string, children: seq<Node>)
    | Other(children: seq<Node>)

  /** Every declaration of each helper name, in source order. */
  type Helpers = map<string, seq<Node>>

  /** What is known of a call's timeout: none, one expression, or that it cannot be read. */
  datatype Stated = Silent | Says(value: Expression) | Opaque

  predicate StartsWith(name: string, prefix: string) {
    |prefix| <= |name| && name[..|prefix|] == prefix
  }

  predicate IsWaiter(name: string) {
    StartsWith(name, "findBy") || StartsWith(name, "findAllBy")
    || StartsWith(name, "waitFor") || StartsWith(name, "waitForElementToBeRemoved")
  }

  /** A waiter's name begins with one of three words; the fourth of the pattern begins with the third. */
  lemma IsWaiterExactly(name: string)
    ensures IsWaiter(name) <==> exists rest :: name == "findBy" + rest || name == "findAllBy" + rest || name == "waitFor" + rest
  {
    assert StartsWith("waitForElementToBeRemoved", "waitFor");
    assert StartsWith(name, "findBy") ==> name == "findBy" + name[6..];
    assert StartsWith(name, "findAllBy") ==> name == "findAllBy" + name[9..];
    assert StartsWith(name, "waitFor") ==> name == "waitFor" + name[7..];
    assert StartsWith(name, "waitForElementToBeRemoved") ==> name[..7] == "waitForElementToBeRemoved"[..7];
  }

  // ------------------------------------------------------------------
  // The options object
  // ------------------------------------------------------------------

  /** The timeout the reader takes from an options object: its first spread or timeout decides. */
  function TimeoutIn(properties: seq<Property>): Stated {
    if properties == [] then Silent
    else match properties[0]
      case Spread => Opaque
      case Timeout(value) => Says(value)
      case _ => TimeoutIn(properties[1..])
  }

  method TimeoutExpression(properties: seq<Property>) returns (stated: Stated)
    ensures stated == TimeoutIn(properties)
  {
    for i := 0 to |properties|
      invariant TimeoutIn(properties) == TimeoutIn(properties[i..])
    {
      match properties[i]
      case Spread => return Opaque;
      case Timeout(value) => return Says(value);
      case _ =>
    }
    stated := Silent;
  }

  /** The timeout an options object has once built: the last property that can set it decides. */
  function TimeoutOf(properties: seq<Property>): Stated {
    if properties == [] then Silent
    else match properties[|properties| - 1]
      case Unrelated => TimeoutOf(properties[..|properties| - 1])
      case Timeout(value) => Says(value)
      case _ => Opaque
  }

  predicate Plain(properties: seq<Property>) {
    forall p :: p in properties ==> p.Unrelated?
  }

  /** `properties[i]` is the first at which the reader stops. */
  predicate ReaderStopsAt(properties: seq<Property>, i: nat) {
    && i < |properties|
    && (properties[i].Spread? || properties[i].Timeout?)
    && forall j :: 0 <= j < i ==> !properties[j].Spread? && !properties[j].Timeout?
  }

  /** `properties[i]` is the last that can set the timeout. */
  predicate LastWord(properties: seq<Property>, i: nat) {
    && i < |properties|
    && !properties[i].Unrelated?
    && forall j :: i < j < |properties| ==> properties[j].Unrelated?
  }

  lemma {:induction false} ReaderStops(properties: seq<Property>, i: nat)
    requires ReaderStopsAt(properties, i)
    ensures TimeoutIn(properties) == match properties[i] case Timeout(value) => Says(value) case _ => Opaque
  {
    if i > 0 {
      ReaderStops(properties[1..], i - 1);
    }
  }

  lemma {:induction false} ReaderRunsOut(properties: seq<Property>)
    requires forall p :: p in properties ==> !p.Spread? && !p.Timeout?
    ensures TimeoutIn(properties) == Silent
  {
    if properties != [] {
      assert properties[0] in properties;
      ReaderRunsOut(properties[1..]);
    }
  }

  lemma {:induction false} LastWordDecides(properties: seq<Property>, i: nat)
    requires LastWord(properties, i)
    ensures TimeoutOf(properties) == match properties[i] case Timeout(value) => Says(value) case _ => Opaque
  {
    if i < |properties| - 1 {
      LastWordDecides(properties[..|properties| - 1], i);
    }
  }

  lemma {:induction false} LastWordExists(properties: seq<Property>)
    ensures Plain(properties) ==> TimeoutOf(properties) == Silent
    ensures !Plain(properties) ==> exists i: nat :: LastWord(properties, i)
  {
    if properties != [] {
      var shorter := properties[..|properties| - 1];
      LastWordExists(shorter);
      if properties[|properties| - 1].Unrelated? {
        assert properties == shorter + [Unrelated];
        if !Plain(properties) {
          assert !Plain(shorter);
          var i: nat :| LastWord(shorter, i);
          assert LastWord(properties, i);
        }
      } else {
        assert LastWord(properties, |properties| - 1);
      }
    }
  }

  lemma {:induction false} ReaderStopExists(properties: seq<Property>)
    ensures (exists i: nat :: ReaderStopsAt(properties, i)) || TimeoutIn(properties) == Silent
    ensures (exists i: nat :: ReaderStopsAt(properties, i)) || forall p :: p in properties ==> !p.Spread? && !p.Timeout?
  {
    if properties != [] {
      if properties[0].Spread? || properties[0].Timeout? {
        assert ReaderStopsAt(properties, 0);
      } else {
        ReaderStopExists(properties[1..]);
        if i: nat :| ReaderStopsAt(properties[1..], i) {
          assert ReaderStopsAt(properties, i + 1);
        }
      }
    }
  }

  lemma OneLastWord(properties: seq<Property>, i: nat, j: nat)
    requires LastWord(properties, i) && LastWord(properties, j)
    ensures i == j
  {
  }

  lemma OneStop(properties: seq<Property>, i: nat, j: nat)
    requires ReaderStopsAt(properties, i) && ReaderStopsAt(properties, j)
    ensures i == j
  {
  }

  /**
   When the reader is right about an object, told from its keys alone: nothing in
   it can set a timeout, or what the reader stops at and the last property that
   can set one are the same timeout or both out of sight.
   */
  ghost predicate WellKeyed(properties: seq<Property>) {
    || Plain(properties)
    || exists i: nat, j: nat :: ReaderStopsAt(properties, i) && LastWord(properties, j)
                      && (if properties[i].Timeout? then properties[j] == properties[i] else !properties[j].Timeout?)
  }

  /** The reader reads an options object right exactly when it is well keyed. */
  lemma ReadRightExactly(properties: seq<Property>)
    ensures TimeoutIn(properties) == TimeoutOf(properties) <==> WellKeyed(properties)
  {
    LastWordExists(properties);
    ReaderStopExists(properties);
    if Plain(properties) {
      ReaderRunsOut(properties);
    } else {
      var j: nat :| LastWord(properties, j);
      LastWordDecides(properties, j);
      forall l: nat | LastWord(properties, l) ensures l == j { OneLastWord(properties, j, l); }
      if i: nat :| ReaderStopsAt(properties, i) {
        ReaderStops(properties, i);
        forall l: nat | ReaderStopsAt(properties, l) ensures l == i { OneStop(properties, i, l); }
      }
    }
  }

  /** A timeout the object goes on to override is read as if it stood: the spread after it is never reported. */
  lemma LateSpreadIsMissed(value: Expression)
    ensures TimeoutIn([Timeout(value), Spread]) == Says(value)
    ensures TimeoutOf([Timeout(value), Spread]) == Opaque
  {
  }

  /** A getter, a setter or a method named timeout is not seen at all. */
  lemma AccessorIsMissed()
    ensures TimeoutIn([Accessor]) == Silent && TimeoutOf([Accessor]) == Opaque
  {
  }

  // ------------------------------------------------------------------
  // The arguments of a call
  // ------------------------------------------------------------------

  /** What a list of arguments states, given what each options object says. */
  function Among(arguments: seq<Argument>, says: seq<Property> -> Stated, found: Stated): Stated {
    if arguments == [] then found
    else match arguments[0]
      case Inert => Among(arguments[1..], says, found)
      case Several => Opaque
      case Unreadable => Opaque
      case Options(properties) =>
        match says(properties)
        case Opaque => Opaque
        case Silent => Among(arguments[1..], says, found)
        case Says(value) => Among(arguments[1..], says, if found.Silent? then Says(value) else found)
  }

  function Tail(arguments: seq<Argument>): seq<Argument> {
    if arguments == [] then [] else arguments[1..]
  }

  /** The timeout the reader takes from a call. */
  function StatedIn(arguments: seq<Argument>): Stated {
    Among(Tail(arguments), TimeoutIn, Silent)
  }

  /**
   The timeout a call has: nobody can tell once a spread stands first, since
   anything in it may be options; otherwise every object after the first argument
   that might carry one counts, and the first that does states it.
   */
  function StatedBy(arguments: seq<Argument>): Stated {
    if arguments != [] && arguments[0].Several? then Opaque else Among(Tail(arguments), TimeoutOf, Silent)
  }

  /** A call whose first argument is a spread is read as if it stated nothing, whatever the spread holds. */
  lemma LeadingSpreadIsMissed()
    ensures StatedIn([Several]) == Silent && StatedBy([Several]) == Opaque
  {
  }

  // ------------------------------------------------------------------
  // When a call is read right
  // ------------------------------------------------------------------

  /** Some argument cannot be seen into, given what each options object says. */
  predicate AnyOpaque(arguments: seq<Argument>, says: seq<Property> -> Stated) {
    exists a :: a in arguments && (a.Several? || a.Unreadable? || (a.Options? && says(a.properties).Opaque?))
  }

  /** What the first options object to say anything says. */
  function First(arguments: seq<Argument>, says: seq<Property> -> Stated): Stated {
    if arguments == [] then Silent
    else if arguments[0].Options? && !says(arguments[0].properties).Silent? then says(arguments[0].properties)
    else First(arguments[1..], says)
  }

  /** A spread stands first. */
  predicate Leads(arguments: seq<Argument>) { arguments != [] && arguments[0].Several? }

  lemma {:induction false} AmongIs(arguments: seq<Argument>, says: seq<Property> -> Stated, found: Stated)
    requires !found.Opaque?
    ensures Among(arguments, says, found)
         == if AnyOpaque(arguments, says) then Opaque else if found.Says? then found else First(arguments, says)
  {
    if arguments != [] {
      assert forall a :: a in arguments <==> a == arguments[0] || a in arguments[1..];
      if arguments[0].Options? && says(arguments[0].properties).Says? {
        AmongIs(arguments[1..], says, if found.Silent? then says(arguments[0].properties) else found);
      } else {
        AmongIs(arguments[1..], says, found);
      }
    }
  }

  /** What the reader and the call come to, told from the arguments. */
  lemma StatedAre(arguments: seq<Argument>)
    ensures var tail := Tail(arguments);
      && StatedIn(arguments) == (if AnyOpaque(tail, TimeoutIn) then Opaque else First(tail, TimeoutIn))
      && StatedBy(arguments) == (if Leads(arguments) || AnyOpaque(tail, TimeoutOf) then Opaque else First(tail, TimeoutOf))
  {
    AmongIs(Tail(arguments), TimeoutIn, Silent);
    AmongIs(Tail(arguments), TimeoutOf, Silent);
  }

  /** Where the reader sees nothing, there is nothing or it is out of sight. */
  lemma SilenceMeans(properties: seq<Property>)
    requires TimeoutIn(properties).Silent?
    ensures !TimeoutOf(properties).Says?
  {
    LastWordExists(properties);
    ReaderStopExists(properties);
    if i: nat :| ReaderStopsAt(properties, i) {
      ReaderStops(properties, i);
    }
    if j: nat :| LastWord(properties, j) {
      LastWordDecides(properties, j);
      assert properties[j] in properties;
    }
  }

  /** And where it sees a timeout, the object has one, unless it is out of sight. */
  lemma SpeechMeans(properties: seq<Property>)
    requires TimeoutIn(properties).Says?
    ensures !TimeoutOf(properties).Silent?
  {
    LastWordExists(properties);
    if Plain(properties) {
      ReaderRunsOut(properties);
    } else {
      var j: nat :| LastWord(properties, j);
      LastWordDecides(properties, j);
    }
  }

  /** The first object in which the reader finds a timeout is well keyed. */
  ghost predicate FirstWellKeyed(arguments: seq<Argument>) {
    arguments != [] ==>
      if arguments[0].Options? && !TimeoutIn(arguments[0].properties).Silent? then WellKeyed(arguments[0].properties)
      else FirstWellKeyed(arguments[1..])
  }

  lemma {:induction false} FirstReadRight(arguments: seq<Argument>)
    requires !AnyOpaque(arguments, TimeoutIn) && !AnyOpaque(arguments, TimeoutOf)
    ensures First(arguments, TimeoutIn) == First(arguments, TimeoutOf) <==> FirstWellKeyed(arguments)
  {
    if arguments != [] {
      assert arguments[0] in arguments && forall a :: a in arguments[1..] ==> a in arguments;
      if arguments[0].Options? {
        var properties := arguments[0].properties;
        if TimeoutIn(properties).Silent? {
          SilenceMeans(properties);
        } else {
          SpeechMeans(properties);
        }
        ReadRightExactly(properties);
      }
      FirstReadRight(arguments[1..]);
    }
  }

  /**
   A call is read right, or its arguments reported, exactly when some argument
   after the first is one the reader cannot see into, or: no spread stands first,
   nothing after it is out of sight, and the first object with a timeout is well
   keyed.
   */
  lemma CallReadExactly(arguments: seq<Argument>)
    ensures StatedIn(arguments).Opaque? || StatedIn(arguments) == StatedBy(arguments)
       <==> AnyOpaque(Tail(arguments), TimeoutIn)
            || (!Leads(arguments) && !AnyOpaque(Tail(arguments), TimeoutOf) && FirstWellKeyed(Tail(arguments)))
  {
    var tail := Tail(arguments);
    StatedAre(arguments);
    if !AnyOpaque(tail, TimeoutIn) {
      NeverOpaque(tail, TimeoutIn);
      if !AnyOpaque(tail, TimeoutOf) {
        FirstReadRight(tail);
      }
    }
  }

  lemma {:induction false} NeverOpaque(arguments: seq<Argument>, says: seq<Property> -> Stated)
    requires !AnyOpaque(arguments, says)
    ensures !First(arguments, says).Opaque?
  {
    if arguments != [] {
      assert arguments[0] in arguments && forall a :: a in arguments[1..] ==> a in arguments;
      NeverOpaque(arguments[1..], says);
    }
  }

  /** The number a waiter spends, if what is known of its timeout gives one. */
  function CostOf(stated: Stated): Option<int> {
    match stated
    case Silent => Some(ASYNC_UTIL_TIMEOUT_MS)
    case Opaque => None
    case Says(value) => value.folded
  }

  /** The first object in which the reader finds a timeout comes to the same number once built. */
  predicate FirstFoldsAlike(arguments: seq<Argument>) {
    arguments != [] ==>
      if arguments[0].Options? && !TimeoutIn(arguments[0].properties).Silent?
      then CostOf(TimeoutIn(arguments[0].properties)) == CostOf(TimeoutOf(arguments[0].properties))
      else FirstFoldsAlike(arguments[1..])
  }

  lemma {:induction false} FirstFolds(arguments: seq<Argument>)
    requires !AnyOpaque(arguments, TimeoutIn) && !AnyOpaque(arguments, TimeoutOf)
    ensures CostOf(First(arguments, TimeoutIn)) == CostOf(First(arguments, TimeoutOf)) <==> FirstFoldsAlike(arguments)
  {
    if arguments != [] {
      assert arguments[0] in arguments && forall a :: a in arguments[1..] ==> a in arguments;
      if arguments[0].Options? {
        if TimeoutIn(arguments[0].properties).Silent? {
          SilenceMeans(arguments[0].properties);
        } else {
          SpeechMeans(arguments[0].properties);
        }
      }
      FirstFolds(arguments[1..]);
    }
  }

  /** The reader reports the call: an argument it cannot see into, or a timeout it cannot fold. */
  predicate Reported(arguments: seq<Argument>) {
    AnyOpaque(Tail(arguments), TimeoutIn) || CostOf(First(Tail(arguments), TimeoutIn)).None?
  }

  /** What the call spends cannot be told from the file. */
  predicate OutOfSight(arguments: seq<Argument>) {
    Leads(arguments) || AnyOpaque(Tail(arguments), TimeoutOf) || CostOf(First(Tail(arguments), TimeoutOf)).None?
  }

  /**
   The calls the reader is right about: those it reports (only where the cost
   cannot be told, if it must be `exact`), and those it can tell and which come to
   the number it found.
   */
  predicate Keyed(exact: bool, arguments: seq<Argument>) {
    if Reported(arguments) then !exact || OutOfSight(arguments)
    else !OutOfSight(arguments) && FirstFoldsAlike(Tail(arguments))
  }

  /** The same of what a call costs: the reader has its cost, or reports it, for exactly the keyed calls. */
  lemma CostReadExactly(exact: bool, arguments: seq<Argument>)
    ensures Keyed(exact, arguments)
       <==> CostOf(StatedIn(arguments)) == CostOf(StatedBy(arguments)) || (!exact && CostOf(StatedIn(arguments)).None?)
  {
    var tail := Tail(arguments);
    StatedAre(arguments);
    if !AnyOpaque(tail, TimeoutIn) && !AnyOpaque(tail, TimeoutOf) {
      FirstFolds(tail);
    }
  }

  method StatedTimeout(arguments: seq<Argument>) returns (stated: Stated)
    ensures stated == StatedIn(arguments)
  {
    stated := Silent;
    var tail := Tail(arguments);
    for i := 0 to |tail|
      invariant !stated.Opaque?
      invariant StatedIn(arguments) == Among(tail[i..], TimeoutIn, stated)
    {
      match tail[i]
      case Inert =>
      case Several => return Opaque;
      case Unreadable => return Opaque;
      case Options(properties) =>
        var one := TimeoutExpression(properties);
        if one.Opaque? {
          return Opaque;
        }
        if one.Says? && stated.Silent? {
          stated := one;
        }
    }
  }
}
