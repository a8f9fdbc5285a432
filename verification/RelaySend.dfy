/**
 Sending one message (extensions/relay-probe/send.go, send_api.go and the
 outcome of a request in client.go), under a core that retries every refusal it
 is not told is final.

 The provider has no idempotency key and no lookup of a prior send, so what a
 refusal is called decides whether the recipient gets the message twice.
 */
module RelaySend {
  import opened Wrappers
  import opened RelayErrors

  const MAX_RESPONSE_BYTES := 4 * 1024 * 1024

  datatype Channel = Channel(slug: string, kind: string)

  /** What an answered request carries back. */
  datatype Body =
    | Unread                      // the connection failed under the answer
    | Content(size: nat, decodes: bool, channels: seq<Channel>, id: string)

  /** What one request comes to: no answer at all, or a status and a body. `arrived`: the provider accepted it. */
  datatype Reply = Reply(answered: bool, status: int, body: Body, arrived: bool)

  function Classify(status: int): Option<Error> {
    if status == 401 || status == 403 then Some({ErrUnauthorized})
    else if status == 429 || status >= 500 then Some({ErrTransient})
    else if status >= 400 then Some({ErrProvider})
    else None
  }

  /** The fate of one request, as the client reports it: an error, or a body it could read. */
  function Do(reply: Reply): Result<Body, Error> {
    if !reply.answered then Err({ErrTransient, ErrUnanswered})
    else match Classify(reply.status)
      case Some(error) => Err(error)
      case None =>
        if reply.body.Unread? then Err({ErrTransient, ErrUnanswered})
        else if reply.body.size > MAX_RESPONSE_BYTES then Err({ErrProvider})
        else if !reply.body.decodes then Err({ErrProvider})
        else Ok(reply.body)
  }

  /** Whether a request was accepted and its answer is one this unit cannot use. */
  predicate AcceptedUnreadably(reply: Reply) {
    reply.answered && Classify(reply.status).None?
    && reply.body.Content? && (reply.body.size > MAX_RESPONSE_BYTES || !reply.body.decodes)
  }

  /** A refused request did not get through. */
  predicate Honest(reply: Reply) {
    reply.answered && Classify(reply.status).Some? ==> !reply.arrived
  }

  function SendRefusal(error: Error): Error {
    if ErrUnauthorized in error then {ErrForbidden} else error
  }

  function TransmissionRefusal(error: Error): Error {
    if ErrUnanswered in error then {ErrSendOutcomeUnknown} else SendRefusal(error)
  }

  /** One attempt: how opening the client ends, then what the lookup and the post meet, should they be made. */
  datatype Attempt = Attempt(opening: Option<Error>, lookup: Reply, post: Reply)

  /** The first direct conversation the provider names. */
  function DirectChannel(channels: seq<Channel>): Option<string> {
    if channels == [] then None
    else if channels[0].kind == "dm" && channels[0].slug != "" then Some(channels[0].slug)
    else DirectChannel(channels[1..])
  }

  /** A direct conversation that can be addressed. */
  predicate Direct(channel: Channel) { channel.kind == "dm" && channel.slug != "" }

  predicate NoneDirect(channels: seq<Channel>) {
    forall i :: 0 <= i < |channels| ==> !Direct(channels[i])
  }

  /** The first direct conversation among these is this one. */
  ghost predicate FirstDirect(channels: seq<Channel>, slug: string) {
    exists i :: 0 <= i < |channels| && channels[i] == Channel(slug, "dm") && slug != ""
                && NoneDirect(channels[..i])
  }

  function DmChannelWith(reply: Reply): Result<string, Error> {
    match Do(reply)
    case Err(error) => Err(error)
    case Ok(body) =>
      match DirectChannel(body.channels)
      case Some(slug) => Ok(slug)
      case None => Err({ErrProvider})
  }

  /** Whether the attempt gets as far as posting the message. */
  predicate Posts(a: Attempt) { a.opening.None? && DmChannelWith(a.lookup).Ok? }

  function Send(a: Attempt): Result<string, Error> {
    match a.opening
    case Some(error) => Err(SendRefusal(error))
    case None =>
      match DmChannelWith(a.lookup)
      case Err(error) => Err(SendRefusal(error))
      case Ok(_) =>
        match Do(a.post)
        case Err(error) => Err(TransmissionRefusal(error))
        case Ok(body) => Ok(body.id)
  }

  /** The recipient has the message: it was posted, and it arrived. */
  predicate Delivers(a: Attempt) { Posts(a) && a.post.arrived }

  /** Opening a client never ends in the one class that is the post's own, and a refused post did not get through. */
  predicate Plausible(a: Attempt) {
    (a.opening.Some? ==> ErrSendOutcomeUnknown !in a.opening.value) && Honest(a.post)
  }

  /** The core stops at success, at a refusal for good, and at an outcome nobody can learn. */
  predicate Final(result: Result<string, Error>) {
    result.Ok? || ErrForbidden in result.error || ErrSendOutcomeUnknown in result.error
  }

  /** How many of a core's attempts deliver, given what each would meet. */
  function Deliveries(attempts: seq<Attempt>): nat {
    if attempts == [] then 0
    else (if Delivers(attempts[0]) then 1 else 0) + if Final(Send(attempts[0])) then 0 else Deliveries(attempts[1..])
  }

  // ------------------------------------------------------------------
  // At most once
  // ------------------------------------------------------------------

  /** An unknown outcome is the post's alone: nothing before it can raise one, and every unanswered post does. */
  lemma UnknownOutcomeIsThePosts(a: Attempt)
    requires Plausible(a)
    ensures Send(a).Err? && ErrSendOutcomeUnknown in Send(a).error
       <==> Posts(a) && (!a.post.answered || (Classify(a.post.status).None? && a.post.body.Unread?))
  {
  }

  /** The core tries again after a delivery exactly when the post was accepted with an answer this unit cannot use. */
  lemma RetriedAfterDelivery(a: Attempt)
    requires Plausible(a) && Delivers(a)
    ensures !Final(Send(a)) <==> AcceptedUnreadably(a.post)
  {
  }

  /** A message is delivered at most once, provided no accepted post answers unreadably. */
  lemma {:induction false} AtMostOnce(attempts: seq<Attempt>)
    requires forall a :: a in attempts ==> Plausible(a) && !(Delivers(a) && AcceptedUnreadably(a.post))
    ensures Deliveries(attempts) <= 1
  {
    if attempts != [] {
      if Delivers(attempts[0]) {
        RetriedAfterDelivery(attempts[0]);
      } else {
        AtMostOnce(attempts[1..]);
      }
    }
  }

  /** What a core meets when nothing goes wrong. */
  const CLEAN := Attempt(None, Reply(true, 200, Content(2, true, [Channel("general", "dm")], ""), true),
                         Reply(true, 200, Content(2, true, [], "sent"), true))

  /**
   The excluded case is exactly what breaks it: after a delivering attempt, no
   continuation delivers again if and only if its accepted post was readable.
   */
  lemma TwiceExactlyWhenUnreadable(a: Attempt)
    requires Plausible(a) && Delivers(a)
    ensures (forall more :: Deliveries([a] + more) <= 1) <==> !AcceptedUnreadably(a.post)
  {
    RetriedAfterDelivery(a);
    forall more: seq<Attempt>
      ensures Deliveries([a] + more) == 1 + if Final(Send(a)) then 0 else Deliveries(more)
    {
      assert ([a] + more)[1..] == more;
    }
    assert Delivers(CLEAN) && Deliveries([CLEAN]) == 1;
    if AcceptedUnreadably(a.post) {
      assert Deliveries([a] + [CLEAN]) == 2;
    }
  }

  // ------------------------------------------------------------------
  // Where a message goes
  // ------------------------------------------------------------------

  /** A conversation is found exactly where a direct one is named, and it is the first of them. */
  lemma DirectChannelIs(channels: seq<Channel>)
    ensures forall slug :: DirectChannel(channels) == Some(slug) <==> FirstDirect(channels, slug)
    ensures DirectChannel(channels).None? <==> NoneDirect(channels)
  {
    FoundChannel(channels);
    forall slug | FirstDirect(channels, slug) ensures DirectChannel(channels) == Some(slug) {
      assert !NoneDirect(channels);
      OneFirstDirect(channels, slug, DirectChannel(channels).value);
    }
  }

  lemma {:induction false} FoundChannel(channels: seq<Channel>)
    ensures DirectChannel(channels).Some? ==> FirstDirect(channels, DirectChannel(channels).value)
    ensures DirectChannel(channels).None? <==> NoneDirect(channels)
  {
    if channels != [] && !Direct(channels[0]) {
      FoundChannel(channels[1..]);
      if DirectChannel(channels[1..]).Some? {
        var slug := DirectChannel(channels[1..]).value;
        var i :| 0 <= i < |channels| - 1 && channels[1..][i] == Channel(slug, "dm") && slug != ""
                 && NoneDirect(channels[1..][..i]);
        assert forall j :: 0 < j < i + 1 ==> channels[j] == channels[1..][..i][j - 1];
        assert channels[i + 1] == Channel(slug, "dm") && NoneDirect(channels[..i + 1]);
      } else {
        assert forall i :: 0 < i < |channels| ==> channels[i] == channels[1..][i - 1];
      }
    }
  }

  /** At most one conversation is the first direct one. */
  lemma OneFirstDirect(channels: seq<Channel>, a: string, b: string)
    requires FirstDirect(channels, a) && FirstDirect(channels, b)
    ensures a == b
  {
  }

  // ------------------------------------------------------------------
  // What an answer means
  // ------------------------------------------------------------------

  /** The provider answered that it did as it was asked. */
  predicate Fine(reply: Reply) { reply.answered && reply.status < 400 }

  /** What each class of failure says of the wire, and that nothing else is one. */
  lemma AnswerExactly(reply: Reply)
    ensures Do(reply).Ok? <==> Fine(reply) && reply.body.Content? && reply.body.size <= MAX_RESPONSE_BYTES && reply.body.decodes
    ensures Do(reply).Ok? ==> Do(reply).value == reply.body
    ensures Do(reply).Err? ==>
              && (ErrUnauthorized in Do(reply).error <==> reply.answered && (reply.status == 401 || reply.status == 403))
              && (ErrUnanswered in Do(reply).error <==> !reply.answered || (Fine(reply) && reply.body.Unread?))
              && (ErrTransient in Do(reply).error <==>
                    ErrUnanswered in Do(reply).error || (reply.answered && (reply.status == 429 || reply.status >= 500)))
              && (ErrProvider in Do(reply).error <==>
                    reply.answered && !(reply.status == 401 || reply.status == 403 || reply.status == 429 || reply.status >= 500)
                    && !(Fine(reply) && reply.body.Unread?))
              && Do(reply).error <= {ErrUnauthorized, ErrUnanswered, ErrTransient, ErrProvider}
  {
  }

  /** The credential was refused. */
  predicate Rejected(reply: Reply) { reply.answered && (reply.status == 401 || reply.status == 403) }

  /** The post went out and nobody can say what became of it. */
  predicate Unknowable(reply: Reply) { !reply.answered || (Fine(reply) && reply.body.Unread?) }

  /**
   When the core stops trying: once the client is open, exactly when the message was
   sent, when a request was refused for its credential, and when the post's outcome
   cannot be learned; and of a client that does not open, exactly when the reason is
   the credential or a refusal for good.
   */
  lemma StopsExactly(a: Attempt)
    ensures Final(Send(a))
       <==> if a.opening.None?
            then Send(a).Ok? || Rejected(a.lookup) || (Posts(a) && (Rejected(a.post) || Unknowable(a.post)))
            else !(a.opening.value !! {ErrUnauthorized, ErrForbidden, ErrSendOutcomeUnknown})
  {
  }

  // ------------------------------------------------------------------
  // The calls in sequence
  // ------------------------------------------------------------------

  /** A message as it is posted: into which conversation, and what it says. */
  datatype Message = Message(channel: string, text: string)

  /** The wire one attempt runs over, what was posted to it, and what of that got through. */
  class Wire {
    const attempt: Attempt
    var posted: seq<Message>
    var delivered: seq<Message>

    constructor (attempt: Attempt)
      ensures this.attempt == attempt && posted == [] && delivered == []
    {
      this.attempt, posted, delivered := attempt, [], [];
    }

    method Lookup() returns (answer: Result<Body, Error>)
      ensures answer == Do(attempt.lookup)
    {
      answer := Do(attempt.lookup);
    }

    method Post(message: Message) returns (answer: Result<Body, Error>)
      modifies this
      ensures answer == Do(attempt.post)
      ensures posted == old(posted) + [message]
      ensures delivered == old(delivered) + if attempt.post.arrived then [message] else []
    {
      posted := posted + [message];
      if attempt.post.arrived {
        delivered := delivered + [message];
      }
      answer := Do(attempt.post);
    }

    /** The conversation with one account: the first direct one named, or a refusal. */
    method ResolveChannel() returns (channel: Result<string, Error>)
      ensures channel == DmChannelWith(attempt.lookup)
      ensures Do(attempt.lookup).Ok? ==>
                var channels := attempt.lookup.body.channels;
                if NoneDirect(channels) then channel == Err({ErrProvider})
                else channel.Ok? && FirstDirect(channels, channel.value)
    {
      var answer := Lookup();
      if answer.Err? {
        return Err(answer.error);
      }
      var channels := answer.value.channels;
      DirectChannelIs(channels);
      for i := 0 to |channels|
        invariant DirectChannel(channels) == DirectChannel(channels[i..])
      {
        if channels[i].kind == "dm" && channels[i].slug != "" {
          return Ok(channels[i].slug);
        }
      }
      channel := Err({ErrProvider});
    }

    /**
     One attempt. It posts at most once, what it was given, and only into the first
     direct conversation the provider named; where none was named it posts nothing
     and says so.
     */
    method SendVia(text: string) returns (sent: Result<string, Error>)
      modifies this
      ensures sent == Send(attempt)
      ensures attempt.opening.Some? || Do(attempt.lookup).Err? ==> posted == old(posted) && delivered == old(delivered)
      ensures attempt.opening.None? && Do(attempt.lookup).Ok? ==>
                var channels := attempt.lookup.body.channels;
                if NoneDirect(channels)
                then posted == old(posted) && delivered == old(delivered) && sent == Err({ErrProvider})
                else exists slug :: && FirstDirect(channels, slug)
                       && posted == old(posted) + [Message(slug, text)]
                       && delivered == old(delivered) + if attempt.post.arrived then [Message(slug, text)] else []
      ensures |delivered| == |old(delivered)| + if Delivers(attempt) then 1 else 0
    {
      if attempt.opening.Some? {
        return Err(SendRefusal(attempt.opening.value));
      }
      var channel := ResolveChannel();
      if channel.Err? {
        return Err(SendRefusal(channel.error));
      }
      var answer := Post(Message(channel.value, text));
      if answer.Err? {
        return Err(TransmissionRefusal(answer.error));
      }
      sent := Ok(answer.value.id);
    }
  }
}
