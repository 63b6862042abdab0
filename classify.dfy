/** The classification endpoint: it takes a free-text description and
    answers with a suggested category and priority. The remote language
    model, together with the prompt built around the description and the
    parsing of its JSON reply, is one step given as a function from the
    description to what that step yields. */
module Classify {
  import opened Tickets

  /** What the remote step yields for one description: the parsed reply,
      or the message of the failure it raised (network error, timeout,
      reply that is not JSON). */
  datatype RemoteOutcome<P> = Parsed(reply: P) | Raised(message: string)

  /** Building the model client, which happens before the guarded call:
      either a client whose one invocation (prompt, request with its own
      retries and timeout, JSON parsing) yields a `RemoteOutcome`, or the
      message of the error its construction raised (no API key, say). */
  datatype ClientSetup<P> =
    | Built(remote: string -> RemoteOutcome<P>)
    | SetupRaised(message: string)

  /** The endpoint's answer. */
  datatype Response<P> =
    | Rejected(error: string)
      // the description is missing or empty
    | Suggested(reply: P)
      // the parsed reply, passed on as it is
    | Defaulted(suggestedCategory: Category, suggestedPriority: Priority, error: string)
      // the client invocation failed; fixed suggestions and the failure's message
    | Unhandled(error: string)
      // building the client raised outside the guarded block; the error
      // escapes the view and the framework answers with a server error

  /** An answer together with the descriptions sent to the client while
      producing it. */
  datatype Outcome<P> = Outcome(response: Response<P>, remoteCalls: seq<string>)

  const DescriptionRequired: string := "Description required"

  /** The suggestions given when the client invocation fails. */
  const FallbackCategory: Category := General
  const FallbackPriority: Priority := Medium

  /** HTTP status of an answer: a rejection is a client error, an escaped
      error a server error, everything else a success. */
  function HttpStatus<P>(r: Response<P>): int
  {
    match r
    case Rejected(_) => 400
    case Unhandled(_) => 500
    case _ => 200
  }

  /** A missing, null or empty description: the only input the endpoint
      refuses. Any other text, however short, is classified. */
  predicate Blank(description: Option<string>)
  {
    description.None? || description.value == ""
  }

  /** Handle one classification request. */
  function Classify<P>(description: Option<string>, setup: ClientSetup<P>): (o: Outcome<P>)
    ensures o.response.Rejected? <==> Blank(description)
    ensures o.response.Rejected? ==> o.response.error == DescriptionRequired
    ensures o.response.Unhandled? <==> !Blank(description) && setup.SetupRaised?
    ensures o.response.Unhandled? ==> o.response.error == setup.message
    ensures o.remoteCalls == [] <==> Blank(description) || setup.SetupRaised?
    ensures |o.remoteCalls| <= 1
    ensures forall d :: d in o.remoteCalls ==> description == Some(d)
    ensures o.response.Defaulted? ==>
              o.response.suggestedCategory == FallbackCategory
              && o.response.suggestedPriority == FallbackPriority
    ensures !Blank(description) && setup.Built? ==>
              match setup.remote(description.value)
              case Parsed(reply) => o.response == Suggested(reply)
              case Raised(message) => o.response == Defaulted(FallbackCategory, FallbackPriority, message)
  {
    if Blank(description) then
      Outcome(Rejected(DescriptionRequired), [])
    else if setup.SetupRaised? then
      Outcome(Unhandled(setup.message), [])
    else
      var text := description.value;
      var response :=
        match setup.remote(text)
        case Parsed(reply) => Suggested(reply)
        case Raised(message) => Defaulted(FallbackCategory, FallbackPriority, message);
      Outcome(response, [text])
  }

  /** A blank description is answered with status 400 before the client is
      built: the answer is the same whatever building or invoking the client
      would have done. */
  lemma BlankNeverReachesRemote<P>(description: Option<string>,
                                   setup1: ClientSetup<P>, setup2: ClientSetup<P>)
    requires Blank(description)
    ensures Classify(description, setup1) == Classify(description, setup2)
    ensures HttpStatus(Classify(description, setup1).response) == 400
  {
  }

  /** Once the client is built, a non-blank description is always answered
      with success, whether or not the invocation works, and the answer
      depends on the client only through what it yields for that one
      description. */
  lemma NonBlankAlwaysSucceeds<P>(description: Option<string>,
                                  setup1: ClientSetup<P>, setup2: ClientSetup<P>)
    requires !Blank(description)
    requires setup1.Built? && setup2.Built?
    ensures HttpStatus(Classify(description, setup1).response) == 200
    ensures setup1.remote(description.value) == setup2.remote(description.value) ==>
              Classify(description, setup1) == Classify(description, setup2)
  {
  }

  /** When building the client raises, a non-blank description gets a server
      error carrying that message, and nothing is sent. */
  lemma SetupFailureIsServerError<P>(description: Option<string>, setup: ClientSetup<P>)
    requires !Blank(description)
    requires setup.SetupRaised?
    ensures HttpStatus(Classify(description, setup).response) == 500
    ensures Classify(description, setup) == Outcome(Unhandled(setup.message), [])
  {
  }
}
